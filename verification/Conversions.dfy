/** What a conversion prints, read back as numbers and compared with its argument; and what its flags mean
    (lib/printfmt.c:99-245, lib/string.c:239-284). */
module Conversions {
  import opened Numbers
  import opened Formatting

  // ----- numbers -----

  /** A digit as printnum writes it */
  predicate Plain(c: char, base: nat) { IsDigit(c, base) && ('0' <= c <= '9' || 'a' <= c <= 'f') }

  /** The text is n in the base: from k on its digits, without a leading zero; before them padding, up to the width. */
  predicate NumberField(text: string, k: nat, n: nat, base: nat, width: int, padc: char) {
    && k < |text|
    && (forall i :: 0 <= i < k ==> text[i] == padc)
    && (forall i :: k <= i < |text| ==> Plain(text[i], base))
    && (text[k] == '0' ==> k + 1 == |text|)
    && Value(text[k..], base) == n
    && |text| == if width > |text| - k then width else |text| - k
  }

  lemma {:induction false} DigitsArePlain(n: nat, base: nat)
    requires 2 <= base <= 16
    ensures var ds := Digits(n, base);
            && (forall i :: 0 <= i < |ds| ==> Plain(ds[i], base) && ds[i] != 'x')
            && (ds[0] == '0' ==> |ds| == 1 && n == 0)
    decreases n
  {
    Shrinks(n, base);
    HexDigit(n % base, base);
    var ds := Digits(n, base);
    if n >= base {
      DigitsArePlain(n / base, base);
      assert ds == Digits(n / base, base) + [HEX[n % base]];
    } else {
      assert ds == [HEX[n % base]];
    }
  }

  lemma PaddedIsField(n: nat, base: nat, width: int, padc: char)
    requires 2 <= base <= 16
    ensures NumberField(Padded(n, base, width, padc), |Padded(n, base, width, padc)| - |Digits(n, base)|, n, base, width, padc)
  {
    var text, ds := Padded(n, base, width, padc), Digits(n, base);
    var k := |text| - |ds|;
    DigitsArePlain(n, base);
    DigitsSpell(n, base);
    assert text == Repeat(padc, k) + ds && text[k..] == ds;
    assert forall i :: k <= i < |text| ==> text[i] == ds[i - k];
  }

  /** What va_arg takes for the size: the argument's low 32 bits, or 64 with ll */
  function Modulus(lflag: nat): nat {
    if lflag >= 2 then 0x1_0000_0000_0000_0000 else 0x1_0000_0000
  }

  /** An escape at i whose conversion character is c and whose next argument is a */
  ghost predicate EscapeAt(fmt: string, i: nat, args: seq<Arg>, e: Scanned, c: char, a: Arg) {
    && i < |fmt| && fmt[i] == '%' && e == Scan(fmt, i + 1, PLAIN, args)
    && e.ch == c && e.args != [] && e.args[0] == a
  }

  lemma KnownEscape(fmt: string, i: nat, args: seq<Arg>, e: Scanned)
    requires i < |fmt| && fmt[i] == '%' && e == Scan(fmt, i + 1, PLAIN, args) && Convert(e.ch, e.flags, e.args).Some?
    ensures Format(fmt, i, args) == Convert(e.ch, e.flags, e.args).value.0 + Format(fmt, e.next, Convert(e.ch, e.flags, e.args).value.1)
  {
  }

  /** %x, %u and %o print the argument modulo 2^32, or 2^64, in their base, and go on with the next argument. */
  lemma UnsignedConversion(fmt: string, i: nat, args: seq<Arg>, e: Scanned, v: int, c: char, base: nat) returns (text: string, k: nat)
    requires EscapeAt(fmt, i, args, e, c, Num(v)) && ((c == 'x' && base == 16) || (c == 'u' && base == 10) || (c == 'o' && base == 8))
    ensures Format(fmt, i, args) == text + Format(fmt, e.next, e.args[1..])
    ensures NumberField(text, k, v % Modulus(e.flags.lflag), base, e.flags.width, e.flags.padc)
  {
    var n := v % Modulus(e.flags.lflag);
    text := Padded(n, base, e.flags.width, e.flags.padc);
    k := |text| - |Digits(n, base)|;
    PaddedIsField(n, base, e.flags.width, e.flags.padc);
    UnsignedText(e, v, c, base);
    KnownEscape(fmt, i, args, e);
  }

  lemma UnsignedText(e: Scanned, v: int, c: char, base: nat)
    requires e.ch == c && e.args != [] && e.args[0] == Num(v) && ((c == 'x' && base == 16) || (c == 'u' && base == 10) || (c == 'o' && base == 8))
    ensures Convert(e.ch, e.flags, e.args) == Some((Padded(v % Modulus(e.flags.lflag), base, e.flags.width, e.flags.padc), e.args[1..]))
  {
  }

  /** n is the two's complement of v. */
  predicate SignedOf(n: int, v: int, lflag: nat) {
    var m: int := Modulus(lflag);
    -m <= 2 * n < m && n % m == v % m
  }

  lemma SignedIs(v: int, lflag: nat)
    ensures SignedOf(Signed(v, lflag), v, lflag)
  {
    if lflag >= 2 {
      assert Signed(v, lflag) == v % 0x1_0000_0000_0000_0000 || Signed(v, lflag) == v % 0x1_0000_0000_0000_0000 - 0x1_0000_0000_0000_0000;
    } else {
      assert Signed(v, lflag) == v % 0x1_0000_0000 || Signed(v, lflag) == v % 0x1_0000_0000 - 0x1_0000_0000;
    }
  }

  /** %d prints a minus sign if the two's complement of the argument is negative, and then its size, padded behind the sign. */
  lemma SignedConversion(fmt: string, i: nat, args: seq<Arg>, e: Scanned, v: int) returns (n: int, text: string, k: nat)
    requires EscapeAt(fmt, i, args, e, 'd', Num(v))
    ensures SignedOf(n, v, e.flags.lflag)
    ensures Format(fmt, i, args) == (if n < 0 then "-" else "") + text + Format(fmt, e.next, e.args[1..])
    ensures NumberField(text, k, if n < 0 then -n else n, 10, e.flags.width, e.flags.padc)
  {
    n := Signed(v, e.flags.lflag);
    SignedIs(v, e.flags.lflag);
    text := Padded(Abs(n), 10, e.flags.width, e.flags.padc);
    k := |text| - |Digits(Abs(n), 10)|;
    PaddedIsField(Abs(n), 10, e.flags.width, e.flags.padc);
    SignedText(e, v, n, text);
    KnownEscape(fmt, i, args, e);
  }

  lemma SignedText(e: Scanned, v: int, n: int, text: string)
    requires e.ch == 'd' && e.args != [] && e.args[0] == Num(v) && n == Signed(v, e.flags.lflag)
    requires text == Padded(Abs(n), 10, e.flags.width, e.flags.padc)
    ensures Convert(e.ch, e.flags, e.args) == Some(((if n < 0 then "-" else "") + text, e.args[1..]))
  {
  }

  /** %p prints 0x and the address in hexadecimal, padded between the two; an l does not matter. */
  lemma PointerConversion(fmt: string, i: nat, args: seq<Arg>, e: Scanned, v: int) returns (text: string, k: nat)
    requires EscapeAt(fmt, i, args, e, 'p', Num(v))
    ensures Format(fmt, i, args) == ['0', 'x'] + text + Format(fmt, e.next, e.args[1..])
    ensures NumberField(text, k, v % 0x1_0000_0000, 16, e.flags.width, e.flags.padc)
  {
    var n := v % 0x1_0000_0000;
    text := Padded(n, 16, e.flags.width, e.flags.padc);
    k := |text| - |Digits(n, 16)|;
    PaddedIsField(n, 16, e.flags.width, e.flags.padc);
    PointerText(e, v, text);
    KnownEscape(fmt, i, args, e);
  }

  lemma PointerText(e: Scanned, v: int, text: string)
    requires e.ch == 'p' && e.args != [] && e.args[0] == Num(v) && text == Padded(v % 0x1_0000_0000, 16, e.flags.width, e.flags.padc)
    ensures Convert(e.ch, e.flags, e.args) == Some((['0', 'x'] + text, e.args[1..]))
  {
    assert "0x" == ['0', 'x'];
  }

  /** %c prints the character with the argument's low byte as its code; %% prints a percent sign and takes no argument. */
  lemma CharConversion(fmt: string, i: nat, args: seq<Arg>, e: Scanned, v: int)
    requires i < |fmt| && fmt[i] == '%' && e == Scan(fmt, i + 1, PLAIN, args)
    ensures e.ch == 'c' && e.args != [] && e.args[0] == Num(v) ==>
              exists c: char :: c as int == v % 256 && Format(fmt, i, args) == [c] + Format(fmt, e.next, e.args[1..])
    ensures e.ch == '%' ==> Format(fmt, i, args) == "%" + Format(fmt, e.next, e.args)
  {
    if e.ch == 'c' && e.args != [] && e.args[0] == Num(v) {
      assert Format(fmt, i, args) == [(v % 256) as char] + Format(fmt, e.next, e.args[1..]);
    }
  }

  // ----- strings -----

  predicate Printing(c: char) { ' ' <= c <= '~' }

  /** The text of %s: n characters from k on are the string's first n, all of them or as many as the precision lets through;
      with # what is not a printing character is a question mark. The rest is padding to the width: in front, with the
      padding character, or with - behind, with blanks. */
  ghost predicate StringField(text: string, k: nat, n: nat, s: string, f: Flags) {
    && n == (if 0 <= f.precision < |s| then f.precision else |s|)
    && |text| == (if f.width > n then f.width else n) && k + n <= |text|
    && (forall i :: 0 <= i < n ==> text[k + i] == if f.alt && !Printing(s[i]) then '?' else s[i])
    && (if f.padc == '-' then k == 0 else k + n == |text|)
    && (forall i :: 0 <= i < k ==> text[i] == f.padc)
    && (forall i :: k + n <= i < |text| ==> text[i] == ' ')
  }

  lemma {:induction false} ShownAt(s: string, alt: bool, i: nat)
    requires i < |s|
    ensures ShownAll(s, alt)[i] == if alt && !Printing(s[i]) then '?' else s[i]
    decreases |s|
  {
    if i < |s| - 1 { ShownAt(s[..|s| - 1], alt, i); }
  }

  lemma FieldOfString(s: string, f: Flags) returns (k: nat)
    ensures StringField(StrField(s, f), k, Taken(s, f.precision), s, f)
  {
    var text, n := StrField(s, f), Taken(s, f.precision);
    var body := ShownAll(s[..n], f.alt);
    k := if f.padc == '-' then 0 else |text| - n;
    forall i | 0 <= i < n ensures text[k + i] == if f.alt && !Printing(s[i]) then '?' else s[i] {
      ShownAt(s[..n], f.alt, i);
      assert text[k + i] == body[i];
    }
  }

  /** %s prints its string so, or "(null)" for a null pointer. */
  lemma StringConversion(fmt: string, i: nat, args: seq<Arg>, e: Scanned, a: Arg) returns (text: string, k: nat, n: nat)
    requires EscapeAt(fmt, i, args, e, 's', a) && !a.Num?
    ensures Format(fmt, i, args) == text + Format(fmt, e.next, e.args[1..])
    ensures StringField(text, k, n, if a.Str? then a.s else "(null)", e.flags)
  {
    var s := if a.Str? then a.s else "(null)";
    assert s == StrArg(e.args);
    text, n := StrField(s, e.flags), Taken(s, e.flags.precision);
    k := FieldOfString(s, e.flags);
  }

  /** %e prints the name of an error, with either sign, or "error" and its number. */
  lemma ErrorConversion(fmt: string, i: nat, args: seq<Arg>, e: Scanned, v: int) returns (text: string)
    requires EscapeAt(fmt, i, args, e, 'e', Num(v))
    ensures Format(fmt, i, args) == text + Format(fmt, e.next, e.args[1..])
    ensures !(1 <= v <= 8) && !(1 <= -v <= 8) ==>
              |text| > 6 && text[..6] == ['e', 'r', 'r', 'o', 'r', ' '] && NumberField(text[6..], 0, if v < 0 then -v else v, 10, -1, ' ')
  {
    text := ErrorText(v);
    KnownEscape(fmt, i, args, e);
    if !(1 <= Abs(v) <= 8) {
      PaddedIsField(Abs(v), 10, -1, ' ');
      assert text == "error " + Padded(Abs(v), 10, -1, ' ');
      assert text[6..] == Padded(Abs(v), 10, -1, ' ');
      assert text[..6] == "error ";
    }
  }

  // ----- flags -----

  /** The part of an escape behind its %: padding character, width as digits or as a star, a dot and the precision, #, l's, and
      the conversion character */
  function Spell(f: Flags, star: bool, ch: char): string
    requires Spellable(f, star)
  {
    (if f.padc == ' ' then "" else [f.padc])
    + ((if star then "*" else if f.width > 0 then Digits(f.width, 10) else "")
       + ((if Dotted(f, star) then "." else "")
          + ((if f.precision > 0 then Digits(f.precision, 10) else "")
             + ((if f.alt then "#" else "") + (Repeat('l', f.lflag) + [ch])))))
  }

  /** A dot without a width makes the width 0; a precision needs one of them before it. */
  predicate Dotted(f: Flags, star: bool) { f.precision > 0 || (f.width == 0 && !star) }

  /** Flags that can be written: a precision of 0 cannot, since a 0 is the padding character. */
  predicate Spellable(f: Flags, star: bool) {
    && (f.padc == ' ' || f.padc == '-' || f.padc == '0')
    && -1 <= f.width && (star ==> f.width >= 0)
    && (f.precision == -1 || (f.precision > 0 && f.width >= 0))
  }

  predicate Letter(ch: char) { ch !in "-0123456789*.#l" }

  /** fmt continues at i with s and then t. */
  predicate Goes(fmt: string, i: nat, s: string, t: string) {
    i <= |fmt| && fmt[i..] == s + t
  }

  lemma GoesOn(fmt: string, i: nat, s: string, t: string)
    requires Goes(fmt, i, s, t)
    ensures i + |s| <= |fmt| && fmt[i + |s|..] == t && fmt[i..i + |s|] == s
    ensures s != [] ==> CharAt(fmt, i) == s[0]
    ensures s == [] && t != [] ==> CharAt(fmt, i) == t[0]
  {
    assert fmt[i + |s|..] == fmt[i..][|s|..];
    assert fmt[i..i + |s|] == fmt[i..][..|s|];
    if s + t != [] { assert fmt[i] == (s + t)[0]; }
  }

  lemma {:induction false} NumberEnds(fmt: string, i: nat, ds: string, t: string)
    requires Goes(fmt, i, ds, t) && (forall j :: 0 <= j < |ds| ==> IsNumeral(ds[j])) && (t != [] ==> !IsNumeral(t[0]))
    ensures NumeralEnd(fmt, i) == i + |ds|
    decreases |ds|
  {
    GoesOn(fmt, i, ds, t);
    if ds != [] {
      assert fmt[i + 1..] == ds[1..] + t;
      NumberEnds(fmt, i + 1, ds[1..], t);
    }
  }

  /** The scan goes on from i with flags f as it does from j with flags g. */
  ghost predicate Passes(fmt: string, i: nat, f: Flags, args: seq<Arg>, j: nat, g: Flags, rest: seq<Arg>) {
    i <= |fmt| && j <= |fmt| && Scan(fmt, i, f, args) == Scan(fmt, j, g, rest)
  }

  ghost predicate Ends(fmt: string, i: nat, f: Flags, args: seq<Arg>, r: Scanned) {
    i <= |fmt| && Scan(fmt, i, f, args) == r
  }

  lemma Then(fmt: string, i: nat, f: Flags, args: seq<Arg>, j: nat, g: Flags, rest: seq<Arg>, r: Scanned)
    requires Passes(fmt, i, f, args, j, g, rest) && Ends(fmt, j, g, rest, r)
    ensures Ends(fmt, i, f, args, r)
  {
  }

  lemma {:induction false} PassNumber(fmt: string, i: nat, f: Flags, args: seq<Arg>, end: nat, n: int)
    requires i < |fmt| && '1' <= fmt[i] <= '9' && end == NumeralEnd(fmt, i) && n == Value(fmt[i..end], 10)
    ensures Passes(fmt, i, f, args, end, SetNumber(f, n), args)
  {
  }

  /** One character of the flags: padding, star, dot, # or l */
  lemma {:induction false} PassFlag(fmt: string, i: nat, f: Flags, args: seq<Arg>, c: char, g: Flags, rest: seq<Arg>)
    requires i < |fmt| && fmt[i] == c
    requires match c
             case '-' => g == f.(padc := '-') && rest == args
             case '0' => g == f.(padc := '0') && rest == args
             case '*' => args != [] && args[0].Num? && g == (if f.width < 0 then f.(width := args[0].v, precision := -1) else f.(precision := args[0].v)) && rest == args[1..]
             case '.' => g == (if f.width < 0 then f.(width := 0) else f) && rest == args
             case '#' => g == f.(alt := true) && rest == args
             case 'l' => g == f.(lflag := f.lflag + 1) && rest == args
             case _ => false
    ensures Passes(fmt, i, f, args, i + 1, g, rest)
  {
  }

  lemma {:induction false} TheEnd(fmt: string, i: nat, f: Flags, args: seq<Arg>)
    requires i < |fmt| && Letter(fmt[i])
    ensures Ends(fmt, i, f, args, Scanned(i + 1, f, args, fmt[i]))
  {
  }

  /** A number: the width, or the precision if there is a width */
  lemma PassDigits(fmt: string, i: nat, n: nat, s: string, t: string, f: Flags, args: seq<Arg>, j: nat)
    requires n > 0 && Goes(fmt, i, Digits(n, 10) + s, t) && s != [] && !IsNumeral(s[0]) && j == i + |Digits(n, 10)|
    ensures Goes(fmt, j, s, t)
    ensures Passes(fmt, i, f, args, j, if f.width < 0 then f.(width := n, precision := -1) else f.(precision := n), args)
  {
    var ds := Digits(n, 10);
    assert ds + s + t == ds + (s + t) && (s + t)[0] == s[0];
    GoesOn(fmt, i, ds, s + t);
    PassPlain(fmt, i, n, ds, s + t, f, args, j);
  }

  lemma PassPlain(fmt: string, i: nat, n: nat, ds: string, t: string, f: Flags, args: seq<Arg>, j: nat)
    requires n > 0 && ds == Digits(n, 10) && Goes(fmt, i, ds, t) && t != [] && !IsNumeral(t[0]) && j == i + |ds|
    ensures Passes(fmt, i, f, args, j, if f.width < 0 then f.(width := n, precision := -1) else f.(precision := n), args)
  {
    PositiveNumber(n, 10, ds);
    NumberHere(fmt, i, n, ds, t, j);
    PassNumber(fmt, i, f, args, j, n);
  }

  /** The digits of a number other than 0 */
  predicate Numerals(ds: string) {
    ds != [] && '1' <= ds[0] <= '9' && forall j :: 0 <= j < |ds| ==> IsNumeral(ds[j])
  }

  lemma PositiveNumber(n: nat, base: nat, ds: string)
    requires n > 0 && 2 <= base <= 10 && ds == Digits(n, base)
    ensures Numerals(ds) && Value(ds, base) == n
  {
    DigitsArePlain(n, base);
    DigitsSpell(n, base);
    PlainNumerals(ds, base);
  }

  lemma PlainNumerals(ds: string, base: nat)
    requires ds != [] && base <= 10 && ds[0] != '0' && forall i :: 0 <= i < |ds| ==> Plain(ds[i], base)
    ensures Numerals(ds)
  {
  }

  lemma NumberHere(fmt: string, i: nat, n: nat, ds: string, t: string, j: nat)
    requires Numerals(ds) && Value(ds, 10) == n && Goes(fmt, i, ds, t) && t != [] && !IsNumeral(t[0]) && j == i + |ds|
    ensures i < j <= |fmt| && '1' <= fmt[i] <= '9' && j == NumeralEnd(fmt, i) && n == Value(fmt[i..j], 10)
  {
    GoesOn(fmt, i, ds, t);
    NumberEnds(fmt, i, ds, t);
  }

  // the parts of an escape, from the last to the first

  function LTail(f: Flags, ch: char): string { Repeat('l', f.lflag) + [ch] }

  function HashTail(f: Flags, ch: char): string { (if f.alt then "#" else "") + LTail(f, ch) }

  function PrecisionTail(f: Flags, ch: char): string { (if f.precision > 0 then Digits(f.precision, 10) else "") + HashTail(f, ch) }

  function DotTail(f: Flags, star: bool, ch: char): string { (if Dotted(f, star) then "." else "") + PrecisionTail(f, ch) }

  function WidthTail(f: Flags, star: bool, ch: char): string {
    (if star then "*" else if f.width > 0 then Digits(f.width, 10) else "") + DotTail(f, star, ch)
  }

  lemma NoNumeralAhead(f: Flags, star: bool, ch: char)
    requires Letter(ch)
    ensures HashTail(f, ch) != [] && !IsNumeral(HashTail(f, ch)[0])
    ensures Dotted(f, star) || f.precision <= 0 ==> DotTail(f, star, ch) != [] && !IsNumeral(DotTail(f, star, ch)[0])
  {
  }

  lemma {:induction false} EndsEls(fmt: string, i: nat, n: nat, ch: char, t: string, f: Flags, args: seq<Arg>)
    requires Goes(fmt, i, Repeat('l', n) + [ch], t) && Letter(ch)
    ensures Ends(fmt, i, f, args, Scanned(i + n + 1, f.(lflag := f.lflag + n), args, ch))
    decreases n
  {
    ElsGoOn(fmt, i, n, ch, t);
    if n > 0 {
      var g := f.(lflag := f.lflag + 1);
      PassFlag(fmt, i, f, args, 'l', g, args);
      EndsEls(fmt, i + 1, n - 1, ch, t, g, args);
      Then(fmt, i, f, args, i + 1, g, args, Scanned(i + n + 1, f.(lflag := f.lflag + n), args, ch));
    } else {
      TheEnd(fmt, i, f, args);
    }
  }

  lemma ElsGoOn(fmt: string, i: nat, n: nat, ch: char, t: string)
    requires Goes(fmt, i, Repeat('l', n) + [ch], t)
    ensures i < |fmt|
    ensures if n > 0 then fmt[i] == 'l' && Goes(fmt, i + 1, Repeat('l', n - 1) + [ch], t) else fmt[i] == ch
  {
    var s := Repeat('l', n) + [ch];
    GoesOn(fmt, i, s, t);
    if n > 0 {
      assert s[0] == 'l' && s[1..] == Repeat('l', n - 1) + [ch];
      assert fmt[i + 1..] == s[1..] + t;
    } else {
      assert s[0] == ch;
    }
  }

  /** fmt goes on with one character c, and then with s and t. */
  lemma AfterOne(fmt: string, i: nat, c: char, s: string, t: string)
    requires Goes(fmt, i, [c] + s, t)
    ensures i < |fmt| && fmt[i] == c && Goes(fmt, i + 1, s, t)
  {
    assert [c] + s + t == [c] + (s + t);
    GoesOn(fmt, i, [c], s + t);
  }

  lemma Nothing(fmt: string, i: nat, s: string, t: string)
    requires Goes(fmt, i, "" + s, t)
    ensures Goes(fmt, i, s, t)
  {
    assert "" + s == s;
  }

  /** What is left of the escape, from # on, sets the last two flags. */
  lemma EndsHash(fmt: string, i: nat, f: Flags, ch: char, t: string, args: seq<Arg>)
    requires Goes(fmt, i, HashTail(f, ch), t) && Letter(ch)
    ensures Ends(fmt, i, f.(alt := false, lflag := 0), args, Scanned(i + |HashTail(f, ch)|, f, args, ch))
  {
    var g := f.(alt := false, lflag := 0);
    if f.alt {
      AfterOne(fmt, i, '#', LTail(f, ch), t);
      PassFlag(fmt, i, g, args, '#', g.(alt := true), args);
      EndsEls(fmt, i + 1, f.lflag, ch, t, g.(alt := true), args);
      Then(fmt, i, g, args, i + 1, g.(alt := true), args, Scanned(i + |HashTail(f, ch)|, f, args, ch));
    } else {
      Nothing(fmt, i, LTail(f, ch), t);
      EndsEls(fmt, i, f.lflag, ch, t, g, args);
    }
  }

  lemma EndsPrecision(fmt: string, i: nat, f: Flags, ch: char, t: string, args: seq<Arg>)
    requires Goes(fmt, i, PrecisionTail(f, ch), t) && Letter(ch) && (f.precision == -1 || (f.precision > 0 && f.width >= 0))
    ensures Ends(fmt, i, f.(precision := -1, alt := false, lflag := 0), args, Scanned(i + |PrecisionTail(f, ch)|, f, args, ch))
  {
    var g := f.(precision := -1, alt := false, lflag := 0);
    if f.precision > 0 {
      var j := i + |Digits(f.precision, 10)|;
      NoNumeralAhead(f, false, ch);
      PassDigits(fmt, i, f.precision, HashTail(f, ch), t, g, args, j);
      EndsHash(fmt, j, f, ch, t, args);
      Then(fmt, i, g, args, j, f.(alt := false, lflag := 0), args, Scanned(j + |HashTail(f, ch)|, f, args, ch));
    } else {
      Nothing(fmt, i, HashTail(f, ch), t);
      EndsHash(fmt, i, f, ch, t, args);
    }
  }

  lemma EndsDot(fmt: string, i: nat, f: Flags, star: bool, ch: char, t: string, args: seq<Arg>)
    requires Goes(fmt, i, DotTail(f, star, ch), t) && Letter(ch) && Spellable(f, star)
    ensures Ends(fmt, i, f.(precision := -1, alt := false, lflag := 0, width := if star || f.width > 0 then f.width else -1), args,
                 Scanned(i + |DotTail(f, star, ch)|, f, args, ch))
  {
    var h := f.(precision := -1, alt := false, lflag := 0);
    var g := h.(width := if star || f.width > 0 then f.width else -1);
    if Dotted(f, star) {
      AfterOne(fmt, i, '.', PrecisionTail(f, ch), t);
      PassFlag(fmt, i, g, args, '.', h, args);
      EndsPrecision(fmt, i + 1, f, ch, t, args);
      Then(fmt, i, g, args, i + 1, h, args, Scanned(i + |DotTail(f, star, ch)|, f, args, ch));
    } else {
      Nothing(fmt, i, PrecisionTail(f, ch), t);
      EndsPrecision(fmt, i, f, ch, t, args);
    }
  }

  lemma EndsWidth(fmt: string, i: nat, f: Flags, star: bool, ch: char, t: string, args: seq<Arg>, rest: seq<Arg>)
    requires Goes(fmt, i, WidthTail(f, star, ch), t) && Letter(ch) && Spellable(f, star)
    requires args == if star then [Num(f.width)] + rest else rest
    ensures Ends(fmt, i, PLAIN.(padc := f.padc), args, Scanned(i + |WidthTail(f, star, ch)|, f, rest, ch))
  {
    var g := PLAIN.(padc := f.padc);
    var h := g.(width := if star || f.width > 0 then f.width else -1);
    var end := Scanned(i + |WidthTail(f, star, ch)|, f, rest, ch);
    if star {
      AfterOne(fmt, i, '*', DotTail(f, star, ch), t);
      PassFlag(fmt, i, g, args, '*', h, rest);
      EndsDot(fmt, i + 1, f, star, ch, t, rest);
      Then(fmt, i, g, args, i + 1, h, rest, end);
    } else if f.width > 0 {
      var j := i + |Digits(f.width, 10)|;
      NoNumeralAhead(f, star, ch);
      PassDigits(fmt, i, f.width, DotTail(f, star, ch), t, g, rest, j);
      EndsDot(fmt, j, f, star, ch, t, rest);
      Then(fmt, i, g, rest, j, h, rest, Scanned(j + |DotTail(f, star, ch)|, f, rest, ch));
    } else {
      Nothing(fmt, i, DotTail(f, star, ch), t);
      EndsDot(fmt, i, f, star, ch, t, rest);
    }
  }

  /** The scanner takes from an escape exactly the flags it was written with, and the width from the arguments if it is a star. */
  lemma ScanReadsFlags(fmt: string, i: nat, f: Flags, star: bool, ch: char, t: string, rest: seq<Arg>)
    requires Spellable(f, star) && Letter(ch) && Goes(fmt, i, Spell(f, star, ch), t)
    ensures Scan(fmt, i, PLAIN, if star then [Num(f.width)] + rest else rest) == Scanned(i + |Spell(f, star, ch)|, f, rest, ch)
  {
    var args := if star then [Num(f.width)] + rest else rest;
    assert Spell(f, star, ch) == (if f.padc == ' ' then "" else [f.padc]) + WidthTail(f, star, ch);
    var end := Scanned(i + |Spell(f, star, ch)|, f, rest, ch);
    if f.padc == ' ' {
      Nothing(fmt, i, WidthTail(f, star, ch), t);
      EndsWidth(fmt, i, f, star, ch, t, args, rest);
    } else {
      AfterOne(fmt, i, f.padc, WidthTail(f, star, ch), t);
      PassFlag(fmt, i, PLAIN, args, f.padc, PLAIN.(padc := f.padc), args);
      EndsWidth(fmt, i + 1, f, star, ch, t, args, rest);
      Then(fmt, i, PLAIN, args, i + 1, PLAIN.(padc := f.padc), args, end);
    }
  }
}
