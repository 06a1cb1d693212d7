/** Where formatted text goes: vsnprintf (lib/printfmt.c:257-286) and the console buffer of
    vcprintf (lib/printf.c:19-48). Both take the scanner's character stream as it is. */
module Sinks {
  import opened Numbers
  import opened Formatting

  const E_INVAL: int := 3

  function Min(a: int, b: int): int { if a < b then a else b }

  /** struct sprintbuf over buf[..n] */
  class SprintBuf {
    const mem: array<char>
    const end: nat
    var pos: nat
    var cnt: nat

    constructor (mem: array<char>, n: nat)
      requires 1 <= n <= mem.Length
      ensures this.mem == mem && end == n - 1 && pos == 0 && cnt == 0
    {
      this.mem := mem;
      end := n - 1;
      pos := 0;
      cnt := 0;
    }

    method SprintPutch(ch: char)
      requires end < mem.Length && pos <= end && pos <= cnt
      modifies this, mem
      ensures cnt == old(cnt) + 1 && pos == old(pos) + (if old(pos) < end then 1 else 0)
      ensures old(pos) < end ==> mem[old(pos)] == ch
      ensures forall j :: 0 <= j < mem.Length && (j != old(pos) || old(pos) >= end) ==> mem[j] == old(mem[j])
    {
      cnt := cnt + 1;
      if pos < end {
        mem[pos] := ch;
        pos := pos + 1;
      }
    }
  }

  lemma TakeMore(text: string, i: nat)
    requires i < |text|
    ensures text[..i + 1] == text[..i] + [text[i]]
  {
  }

  /** The text sent to sprintputch character by character, and the NUL */
  method Fill(buf: array<char>, n: nat, text: string) returns (r: nat)
    requires 1 <= n <= buf.Length
    modifies buf
    ensures r == |text| && Holds(buf[..], text, n, old(buf[..]))
  {
    var b := new SprintBuf(buf, n);
    for i := 0 to |text|
      invariant b.mem == buf && b.end == n - 1 && b.cnt == i && b.pos == Min(i, n - 1)
      invariant forall j :: 0 <= j < b.pos ==> buf[j] == text[j]
      invariant forall j :: b.pos <= j < buf.Length ==> buf[j] == old(buf[j])
    {
      b.SprintPutch(text[i]);
    }
    buf[b.pos] := '\0';
    r := b.cnt;
  }

  /** The first n - 1 characters of the text, or all of it, then a NUL, then what was there before */
  predicate Holds(now: string, text: string, n: nat, was: string) {
    1 <= n <= |now| && |now| == |was|
    && var kept := Min(|text|, n - 1);
       && now[kept] == '\0'
       && (forall j :: 0 <= j < kept ==> now[j] == text[j])
       && (forall j :: kept < j < |now| ==> now[j] == was[j])
  }

  /** vsnprintf into the first n characters of buf: the first n - 1 characters of the text and a NUL;
      the result is the length of the whole text. Nothing else of buf changes. Without a buffer or room: an error. */
  method VSnprintf(buf: array?<char>, n: int, fmt: string, args: seq<Arg>) returns (r: int)
    requires buf != null ==> n <= buf.Length
    modifies buf
    ensures buf == null || n < 1 ==> r == -E_INVAL && (buf != null ==> buf[..] == old(buf[..]))
    ensures buf != null && n >= 1 ==> r == |Format(fmt, 0, args)| && Holds(buf[..], Format(fmt, 0, args), n, old(buf[..]))
  {
    if buf == null || n < 1 { return -E_INVAL; }
    var sink := new Sink();
    VPrintFmt(sink, fmt, args);
    r := Fill(buf, n, sink.out);
  }

  /** The chunks, put together */
  function Joined(chunks: seq<string>): string {
    if chunks == [] then [] else Joined(chunks[..|chunks| - 1]) + chunks[|chunks| - 1]
  }

  const BUFSIZE: nat := 256

  /** struct printbuf, and the strings given to sys_cputs */
  class PrintBuf {
    const buf: array<char>
    var idx: nat
    var cnt: nat
    var written: seq<string>

    constructor ()
      ensures Valid() && Seen() == [] && cnt == 0 && fresh(buf) && written == []
    {
      buf := new char[BUFSIZE];
      idx, cnt, written := 0, 0, [];
    }

    /** There is room for one more character; no chunk so far was longer than the buffer allows. */
    predicate Valid()
      reads this
    {
      buf.Length == BUFSIZE && idx < BUFSIZE - 1 && forall i :: 0 <= i < |written| ==> |written[i]| <= BUFSIZE - 1
    }

    /** All that was put in */
    ghost function Seen(): string
      reads this, buf
      requires Valid()
    {
      Joined(written) + buf[..idx]
    }

    method SysCputs(len: nat)
      requires len <= buf.Length
      modifies this`written
      ensures written == old(written) + [buf[..len]]
    {
      written := written + [buf[..len]];
    }

    method Putch(ch: char)
      requires Valid()
      modifies this, buf
      ensures Valid() && Seen() == old(Seen()) + [ch] && cnt == old(cnt) + 1
    {
      buf[idx] := ch;
      idx := idx + 1;
      assert buf[..idx] == old(buf[..idx]) + [ch];
      if idx == BUFSIZE - 1 {
        SysCputs(idx);
        assert written[..|written| - 1] == old(written);
        idx := 0;
      }
      cnt := cnt + 1;
    }
  }

  /** The text sent to putch character by character, and the last write */
  method WriteOut(text: string) returns (r: nat, chunks: seq<string>)
    ensures Joined(chunks) == text && r == |text|
    ensures forall i :: 0 <= i < |chunks| ==> |chunks[i]| <= BUFSIZE - 1
  {
    var b := new PrintBuf();
    for i := 0 to |text|
      invariant fresh(b) && fresh(b.buf) && b.Valid() && b.Seen() == text[..i] && b.cnt == i
    {
      TakeMore(text, i);
      b.Putch(text[i]);
    }
    ghost var before := b.written;
    assert text[..|text|] == text;
    b.SysCputs(b.idx);
    assert b.written[..|b.written| - 1] == before;
    r, chunks := b.cnt, b.written;
  }

  /** vcprintf: the chunks written to the console, none longer than the buffer, make up the text;
      the result is its length. */
  method VCprintf(fmt: string, args: seq<Arg>) returns (r: nat, chunks: seq<string>)
    ensures Joined(chunks) == Format(fmt, 0, args) && r == |Format(fmt, 0, args)|
    ensures forall i :: 0 <= i < |chunks| ==> |chunks[i]| <= BUFSIZE - 1
  {
    var sink := new Sink();
    VPrintFmt(sink, fmt, args);
    r, chunks := WriteOut(sink.out);
  }
}
