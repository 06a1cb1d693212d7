/** The format scanner vprintfmt (lib/printfmt.c:84-245).
    A C string is the sequence of its characters before the NUL. */
module Formatting {
  import opened Numbers

  datatype Option<T> = None | Some(value: T)

  /** A variable argument; a call with arguments of other kinds than its format asks for is not modelled. */
  datatype Arg = Num(v: int) | Str(s: string) | NullStr

  datatype Flags = Flags(padc: char, width: int, precision: int, lflag: nat, alt: bool)

  const PLAIN := Flags(' ', -1, -1, 0, false)

  function IntArg(args: seq<Arg>): int {
    if args != [] && args[0].Num? then args[0].v else 0
  }

  function StrArg(args: seq<Arg>): string {
    if args != [] && args[0].Str? then args[0].s else "(null)"
  }

  function Rest(args: seq<Arg>): seq<Arg> {
    if args == [] then [] else args[1..]
  }

  // ----- flags -----

  predicate IsNumeral(c: char) { '0' <= c <= '9' }

  /** The end of the numerals that start at i */
  function NumeralEnd(fmt: string, i: nat): (r: nat)
    requires i <= |fmt|
    ensures i <= r <= |fmt| && (forall k :: i <= k < r ==> IsNumeral(fmt[k])) && !IsNumeral(CharAt(fmt, r))
    decreases |fmt| - i
  {
    if IsNumeral(CharAt(fmt, i)) then NumeralEnd(fmt, i + 1) else i
  }

  /** process_precision: the first number is the width, a later one the precision */
  function SetNumber(f: Flags, n: int): Flags {
    if f.width < 0 then f.(width := n, precision := -1) else f.(precision := n)
  }

  /** What the scanner has found: the index after the conversion character, and that character */
  datatype Scanned = Scanned(next: nat, flags: Flags, args: seq<Arg>, ch: char)

  /** The flags, width and precision from i on, up to a conversion character (or the NUL) */
  function Scan(fmt: string, i: nat, f: Flags, args: seq<Arg>): (r: Scanned)
    requires i <= |fmt|
    ensures i < r.next <= |fmt| + 1 && r.ch == CharAt(fmt, r.next - 1)
    ensures forall k :: i <= k < r.next - 1 ==> fmt[k] != '%'
    decreases |fmt| - i
  {
    var ch := CharAt(fmt, i);
    if ch == '-' then Scan(fmt, i + 1, f.(padc := '-'), args)
    else if ch == '0' then Scan(fmt, i + 1, f.(padc := '0'), args)
    else if '1' <= ch <= '9' then
      var end := NumeralEnd(fmt, i);
      Scan(fmt, end, SetNumber(f, Value(fmt[i..end], 10)), args)
    else if ch == '*' then Scan(fmt, i + 1, SetNumber(f, IntArg(args)), Rest(args))
    else if ch == '.' then Scan(fmt, i + 1, if f.width < 0 then f.(width := 0) else f, args)
    else if ch == '#' then Scan(fmt, i + 1, f.(alt := true), args)
    else if ch == 'l' then Scan(fmt, i + 1, f.(lflag := f.lflag + 1), args)
    else Scanned(i + 1, f, args, ch)
  }

  // ----- conversions -----

  function Unsigned(v: int, lflag: nat): nat {
    if lflag >= 2 then v % 0x1_0000_0000_0000_0000 else v % 0x1_0000_0000
  }

  function Signed(v: int, lflag: nat): int {
    var u := Unsigned(v, lflag);
    if lflag >= 2 then (if u >= 0x8000_0000_0000_0000 then u - 0x1_0000_0000_0000_0000 else u)
    else if u >= 0x8000_0000 then u - 0x1_0000_0000 else u
  }

  function Abs(v: int): nat { if v < 0 then -v else v }

  const ERRORS := ["unspecified error", "bad environment", "invalid parameter", "out of memory",
                   "out of environments", "segmentation fault", "env is not recving", "unexpected end of file"]

  /** %e: the name of an error, or its number */
  function ErrorText(v: int): string {
    var err := Abs(v);
    if 1 <= err <= |ERRORS| then ERRORS[err - 1] else "error " + Padded(err, 10, -1, ' ')
  }

  /** Shown as it is, or with # as a question mark if it is not a printing character */
  function Shown(c: char, alt: bool): char {
    if alt && (c < ' ' || c > '~') then '?' else c
  }

  function ShownAll(s: string, alt: bool): (r: string)
    ensures |r| == |s|
  {
    if s == [] then [] else ShownAll(s[..|s| - 1], alt) + [Shown(s[|s| - 1], alt)]
  }

  /** How many characters of s the precision lets through */
  function Taken(s: string, precision: int): (n: nat)
    ensures n <= |s|
  {
    if 0 <= precision < |s| then precision else |s|
  }

  /** %s: padded on the left, or with - on the right */
  function StrField(s: string, f: Flags): string {
    var n := Taken(s, f.precision);
    var body := ShownAll(s[..n], f.alt);
    if f.padc == '-' then body + Repeat(' ', f.width - n) else Repeat(f.padc, f.width - n) + body
  }

  /** The field is as wide as asked for, or as its contents. */
  lemma FieldLength(s: string, f: Flags)
    ensures |StrField(s, f)| == if f.width > Taken(s, f.precision) then f.width else Taken(s, f.precision)
  {
  }

  /** The text of a conversion and the arguments left, or None for an unknown character */
  function Convert(ch: char, f: Flags, args: seq<Arg>): Option<(string, seq<Arg>)> {
    var v := IntArg(args);
    match ch
    case 'c' => Some(([(v % 256) as char], Rest(args)))
    case 'e' => Some((ErrorText(v), Rest(args)))
    case 's' => Some((StrField(StrArg(args), f), Rest(args)))
    case 'd' =>
      var n := Signed(v, f.lflag);
      Some(((if n < 0 then "-" else "") + Padded(Abs(n), 10, f.width, f.padc), Rest(args)))
    case 'u' => Some((Padded(Unsigned(v, f.lflag), 10, f.width, f.padc), Rest(args)))
    case 'o' => Some((Padded(Unsigned(v, f.lflag), 8, f.width, f.padc), Rest(args)))
    case 'p' => Some(("0x" + Padded(Unsigned(v, 0), 16, f.width, f.padc), Rest(args)))
    case 'x' => Some((Padded(Unsigned(v, f.lflag), 16, f.width, f.padc), Rest(args)))
    case '%' => Some(("%", args))
    case _ => None
  }

  /** The characters printed for the format from i on. An unknown escape prints its % and
      goes on behind it, so that the rest of it is printed as plain text. */
  function Format(fmt: string, i: nat, args: seq<Arg>): string
    decreases |fmt| - i
  {
    if i >= |fmt| then []
    else if fmt[i] != '%' then [fmt[i]] + Format(fmt, i + 1, args)
    else
      var e := Scan(fmt, i + 1, PLAIN, args);
      match Convert(e.ch, e.flags, e.args)
      case Some((text, rest)) => text + Format(fmt, e.next, rest)
      case None => "%" + Format(fmt, i + 1, e.args)
  }

  lemma PlainChar(fmt: string, i: nat, args: seq<Arg>)
    requires i < |fmt| && fmt[i] != '%'
    ensures Format(fmt, i, args) == [fmt[i]] + Format(fmt, i + 1, args)
  {
  }

  lemma Assoc<T>(a: seq<T>, b: seq<T>, c: seq<T>)
    ensures a + b + c == a + (b + c)
  {
  }

  lemma Prepend<T>(c: T, a: seq<T>, b: seq<T>)
    ensures [c] + (a + b) == ([c] + a) + b
  {
  }

  /** Text without a % is printed as it is. */
  lemma {:induction false} PlainText(fmt: string, i: nat, j: nat, args: seq<Arg>)
    requires i <= j <= |fmt| && forall k :: i <= k < j ==> fmt[k] != '%'
    ensures Format(fmt, i, args) == fmt[i..j] + Format(fmt, j, args)
    decreases j - i
  {
    if i < j {
      PlainChar(fmt, i, args);
      PlainText(fmt, i + 1, j, args);
      Prepend(fmt[i], fmt[i + 1..j], Format(fmt, j, args));
      assert fmt[i..j] == [fmt[i]] + fmt[i + 1..j];
    } else {
      assert fmt[i..j] == [];
    }
  }

  /** An unknown escape, up to end, is printed verbatim, flags and all. */
  lemma UnknownEscapeIsVerbatim(fmt: string, i: nat, args: seq<Arg>, e: Scanned, end: nat)
    requires i < |fmt| && fmt[i] == '%' && e == Scan(fmt, i + 1, PLAIN, args) && Convert(e.ch, e.flags, e.args).None?
    requires end == if e.next <= |fmt| then e.next else |fmt|
    ensures Format(fmt, i, args) == fmt[i..end] + Format(fmt, end, e.args)
  {
    UnknownStep(fmt, i, args);
    LastIsNoPercent(e, fmt);
    PlainText(fmt, i + 1, end, e.args);
    Chain(fmt, i, end, Format(fmt, i, args), Format(fmt, i + 1, e.args), Format(fmt, end, e.args));
  }

  lemma Chain(fmt: string, i: nat, end: nat, whole: string, after: string, rest: string)
    requires i < end <= |fmt| && fmt[i] == '%' && whole == ['%'] + after && after == fmt[i + 1..end] + rest
    ensures whole == fmt[i..end] + rest
  {
    Prepend('%', fmt[i + 1..end], rest);
    assert fmt[i..end] == ['%'] + fmt[i + 1..end];
  }

  lemma LastIsNoPercent(e: Scanned, fmt: string)
    requires Convert(e.ch, e.flags, e.args).None?
    ensures e.ch != '%'
  {
  }

  lemma UnknownStep(fmt: string, i: nat, args: seq<Arg>)
    requires i < |fmt| && fmt[i] == '%'
    requires var e := Scan(fmt, i + 1, PLAIN, args); Convert(e.ch, e.flags, e.args).None?
    ensures Format(fmt, i, args) == ['%'] + Format(fmt, i + 1, Scan(fmt, i + 1, PLAIN, args).args)
  {
  }

  // ----- the code -----

  /** The scanning loop over the flags, width and precision */
  method ScanFlags(fmt: string, i: nat, args: seq<Arg>) returns (e: Scanned)
    requires i <= |fmt|
    ensures e == Scan(fmt, i, PLAIN, args)
  {
    var at, f, rest := i, PLAIN, args;
    var ch := CharAt(fmt, at);
    while ch == '-' || ch == '0' || IsNumeral(ch) || ch == '*' || ch == '.' || ch == '#' || ch == 'l'
      invariant at <= |fmt| && ch == CharAt(fmt, at)
      invariant Scan(fmt, at, f, rest) == Scan(fmt, i, PLAIN, args)
      decreases |fmt| - at
    {
      if '1' <= ch <= '9' {
        var n, end := ReadNumber(fmt, at);
        f, at := SetNumber(f, n), end;
      } else {
        if ch == '-' || ch == '0' { f := f.(padc := ch); }
        else if ch == '*' { f, rest := SetNumber(f, IntArg(rest)), Rest(rest); }
        else if ch == '.' { if f.width < 0 { f := f.(width := 0); } }
        else if ch == '#' { f := f.(alt := true); }
        else { f := f.(lflag := f.lflag + 1); }
        at := at + 1;
      }
      ch := CharAt(fmt, at);
    }
    e := Scanned(at + 1, f, rest, ch);
  }

  /** The loop over the digits of a width or precision */
  method ReadNumber(fmt: string, i: nat) returns (n: int, end: nat)
    requires i < |fmt| && IsNumeral(fmt[i])
    ensures end == NumeralEnd(fmt, i) && n == Value(fmt[i..end], 10)
  {
    n, end := 0, i;
    while IsNumeral(CharAt(fmt, end))
      invariant i <= end <= |fmt| && NumeralEnd(fmt, end) == NumeralEnd(fmt, i)
      invariant n == Value(fmt[i..end], 10)
      decreases |fmt| - end
    {
      assert fmt[i..end + 1][..end - i] == fmt[i..end];
      n := n * 10 + (fmt[end] as int - '0' as int);
      end := end + 1;
    }
  }

  method PutAll(sink: Sink, s: string)
    modifies sink
    ensures sink.out == old(sink.out) + s
  {
    for i := 0 to |s|
      invariant sink.out == old(sink.out) + s[..i]
    {
      sink.Put(s[i]);
      assert s[..i + 1] == s[..i] + [s[i]];
    }
    assert s[..|s|] == s;
  }

  method PutTimes(sink: Sink, c: char, n: int)
    modifies sink
    ensures sink.out == old(sink.out) + Repeat(c, n)
  {
    var w := n;
    while w > 0
      invariant w <= n && (w >= 0 || w == n) && sink.out == old(sink.out) + Repeat(c, n - w)
    {
      sink.Put(c);
      w := w - 1;
    }
  }

  method PutShown(sink: Sink, s: string, n: nat, alt: bool)
    requires n <= |s|
    modifies sink
    ensures sink.out == old(sink.out) + ShownAll(s[..n], alt)
  {
    for i := 0 to n
      invariant sink.out == old(sink.out) + ShownAll(s[..i], alt)
    {
      sink.Put(Shown(s[i], alt));
      assert s[..i + 1][..i] == s[..i];
    }
  }

  /** The three loops of %s */
  method PrintStr(sink: Sink, s: string, f: Flags)
    modifies sink
    ensures sink.out == old(sink.out) + StrField(s, f)
  {
    var n := Taken(s, f.precision);
    var width := f.width;
    if width > 0 && f.padc != '-' {
      width := width - n;
      PutTimes(sink, f.padc, width);
      if width > 0 { width := 0; }
    }
    PutShown(sink, s, n, f.alt);
    PutTimes(sink, ' ', width - n);
    StrFieldParts(s, f, width, n);
  }

  lemma StrFieldParts(s: string, f: Flags, width: int, n: nat)
    requires n == Taken(s, f.precision)
    requires width == if f.width > 0 && f.padc != '-' then (if f.width - n > 0 then 0 else f.width - n) else f.width
    ensures var left := if f.width > 0 && f.padc != '-' then Repeat(f.padc, f.width - n) else [];
            StrField(s, f) == left + ShownAll(s[..n], f.alt) + Repeat(' ', width - n)
  {
  }

  /** The conversion itself; an unknown character is left to the caller. */
  method PrintEscape(sink: Sink, e: Scanned) returns (known: bool, rest: seq<Arg>)
    modifies sink
    ensures known == Convert(e.ch, e.flags, e.args).Some?
    ensures known ==> (sink.out, rest) == var (text, left) := Convert(e.ch, e.flags, e.args).value; (old(sink.out) + text, left)
    ensures !known ==> sink.out == old(sink.out)
  {
    known, rest := true, Rest(e.args);
    var f := e.flags;
    var v := IntArg(e.args);
    match e.ch
    case 'c' => sink.Put((v % 256) as char);
    case 'e' => PrintError(sink, v);
    case 's' => PrintStr(sink, StrArg(e.args), f);
    case 'd' => PrintSigned(sink, Signed(v, f.lflag), f);
    case 'u' => sink.PrintNum(Unsigned(v, f.lflag), 10, f.width, f.padc);
    case 'o' => sink.PrintNum(Unsigned(v, f.lflag), 8, f.width, f.padc);
    case 'p' =>
      PutAll(sink, "0x");
      sink.PrintNum(Unsigned(v, 0), 16, f.width, f.padc);
      Assoc(old(sink.out), "0x", Padded(Unsigned(v, 0), 16, f.width, f.padc));
    case 'x' => sink.PrintNum(Unsigned(v, f.lflag), 16, f.width, f.padc);
    case '%' =>
      sink.Put('%');
      rest := e.args;
    case _ => known := false;
  }

  method PrintError(sink: Sink, v: int)
    modifies sink
    ensures sink.out == old(sink.out) + ErrorText(v)
  {
    var err: nat := if v < 0 then -v else v;
    if 1 <= err <= |ERRORS| { PutAll(sink, ERRORS[err - 1]); }
    else {
      PutAll(sink, "error ");
      sink.PrintNum(err, 10, -1, ' ');
      Assoc(old(sink.out), "error ", Padded(err, 10, -1, ' '));
    }
  }

  method PrintSigned(sink: Sink, n: int, f: Flags)
    modifies sink
    ensures sink.out == old(sink.out) + ((if n < 0 then "-" else "") + Padded(Abs(n), 10, f.width, f.padc))
  {
    var num := n;
    if num < 0 {
      sink.Put('-');
      num := -num;
    }
    sink.PrintNum(num, 10, f.width, f.padc);
    Assoc(old(sink.out), if n < 0 then "-" else "", Padded(num, 10, f.width, f.padc));
  }

  /** vprintfmt. The backward scan after an unknown escape ends just behind that escape's %, so the
      whole loop terminates. */
  method VPrintFmt(sink: Sink, fmt: string, args: seq<Arg>)
    modifies sink
    ensures sink.out == old(sink.out) + Format(fmt, 0, args)
  {
    var i, rest := 0, args;
    while i < |fmt|
      invariant i <= |fmt| + 1
      invariant sink.out + Format(fmt, i, rest) == old(sink.out) + Format(fmt, 0, args)
      decreases |fmt| - i
    {
      i, rest := PrintNext(sink, fmt, i, rest);
    }
  }

  /** One character of plain text, or one escape */
  method PrintNext(sink: Sink, fmt: string, i: nat, args: seq<Arg>) returns (next: nat, rest: seq<Arg>)
    requires i < |fmt|
    modifies sink
    ensures i < next <= |fmt| + 1
    ensures sink.out + Format(fmt, next, rest) == old(sink.out) + Format(fmt, i, args)
  {
    next, rest := i + 1, args;
    if fmt[i] != '%' {
      sink.Put(fmt[i]);
      return;
    }
    var e := ScanFlags(fmt, i + 1, args);
    next := e.next;
    var known;
    known, rest := PrintEscape(sink, e);
    if !known {
      rest := e.args;
      sink.Put('%');
      next := next - 1;
      while fmt[next - 1] != '%'
        invariant i + 1 <= next <= |fmt| && next <= e.next - 1
        decreases next
      {
        next := next - 1;
      }
      assert next == i + 1;
    }
  }
}
