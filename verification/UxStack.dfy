/** Page fault frames on the user exception stack: pushed by the kernel (kern/trap.c:403-434),
    unwound by the upcall's return path (lib/pfentry.S:34-101), nested to any depth. */
module ExceptionStack {
  const WORD: nat := 0x1_0000_0000
  const UXSTACKTOP: nat := 0xEEC00000
  const PGSIZE: nat := 4096
  const BASE: nat := UXSTACKTOP - PGSIZE
  const FRAME: nat := 52
  const T_PGFLT: nat := 14

  type Word = n: nat | n < WORD
  type Byte = n: nat | n < 256

  /** Memory, byte by byte */
  type Mem = map<nat, Byte>

  function ByteAt(m: Mem, a: nat): Byte {
    if a in m then m[a] else 0
  }

  function Load(m: Mem, a: nat): Word {
    ByteAt(m, a) + 0x100 * ByteAt(m, a + 1) + 0x10000 * ByteAt(m, a + 2) + 0x1000000 * ByteAt(m, a + 3)
  }

  function Store(m: Mem, a: nat, w: Word): Mem {
    m[a := w % 0x100][a + 1 := w / 0x100 % 0x100][a + 2 := w / 0x10000 % 0x100][a + 3 := w / 0x1000000 % 0x100]
  }

  /** A word is the sum of its bytes. */
  lemma Bytes(w: Word)
    ensures w == w % 0x100 + 0x100 * (w / 0x100 % 0x100) + 0x10000 * (w / 0x10000 % 0x100) + 0x1000000 * (w / 0x1000000 % 0x100)
  {
    assert w / 0x10000 == w / 0x100 / 0x100 && w / 0x1000000 == w / 0x100 / 0x100 / 0x100;
  }

  lemma StoredBytes(m: Mem, a: nat, w: Word)
    ensures var m' := Store(m, a, w);
            && ByteAt(m', a) == w % 0x100 && ByteAt(m', a + 1) == w / 0x100 % 0x100
            && ByteAt(m', a + 2) == w / 0x10000 % 0x100 && ByteAt(m', a + 3) == w / 0x1000000 % 0x100
  {
  }

  lemma LoadStored(m: Mem, a: nat, w: Word)
    ensures Load(Store(m, a, w), a) == w
  {
    Bytes(w);
    StoredBytes(m, a, w);
  }

  /** m' is m outside [lo, hi). */
  ghost predicate SameOutside(m: Mem, m': Mem, lo: nat, hi: nat) {
    forall a: nat :: a < lo || hi <= a ==> ByteAt(m', a) == ByteAt(m, a)
  }

  /** A word written at a; words that do not overlap it stay. */
  ghost predicate Written(m: Mem, m': Mem, a: nat, w: Word) {
    && Load(m', a) == w
    && (forall b: nat :: b + 4 <= a || a + 4 <= b ==> Load(m', b) == Load(m, b))
  }

  method StoreWord(m: Mem, a: nat, w: Word) returns (m': Mem)
    ensures Written(m, m', a, w) && SameOutside(m, m', a, a + 4)
  {
    m' := Store(m, a, w);
    LoadStored(m, a, w);
  }

  /** What a fault must leave as it was */
  datatype Cpu = Cpu(edi: Word, esi: Word, ebp: Word, ebx: Word, edx: Word, ecx: Word, eax: Word, eip: Word, eflags: Word, esp: Word)

  // ----- page_fault_handler -----

  predicate OnExceptionStack(esp: nat) { BASE <= esp < UXSTACKTOP }

  /** Where the frame goes: below a spare word if already on the exception stack */
  function FrameAt(esp: nat): nat {
    if OnExceptionStack(esp) then esp - (FRAME + 4) else UXSTACKTOP - FRAME
  }

  /** The frame at utf holds the trap-time state. */
  predicate HoldsFrame(m: Mem, utf: nat, c: Cpu) {
    && Load(m, utf + 8) == c.edi && Load(m, utf + 12) == c.esi && Load(m, utf + 16) == c.ebp
    && Load(m, utf + 24) == c.ebx && Load(m, utf + 28) == c.edx && Load(m, utf + 32) == c.ecx && Load(m, utf + 36) == c.eax
    && Load(m, utf + 40) == c.eip && Load(m, utf + 44) == c.eflags && Load(m, utf + 48) == c.esp
  }

  /** The thirteen words of a frame, in address order */
  function FrameWords(c: Cpu, oesp: Word, faultVa: Word): (r: seq<Word>)
    ensures |r| == 13
  {
    [faultVa, T_PGFLT, c.edi, c.esi, c.ebp, oesp, c.ebx, c.edx, c.ecx, c.eax, c.eip, c.eflags, c.esp]
  }

  /** The environment may write at a; `writable` are the pages it may write. */
  predicate MayWrite(writable: set<nat>, a: nat) { a / PGSIZE in writable }

  predicate MayWriteFrame(writable: set<nat>, utf: nat) {
    forall a: nat :: utf <= a < utf + FRAME ==> MayWrite(writable, a)
  }

  lemma FrameTouchesTwoPages(writable: set<nat>, utf: nat)
    ensures MayWriteFrame(writable, utf) <==> MayWrite(writable, utf) && MayWrite(writable, utf + FRAME - 1)
  {
    forall a: nat | utf <= a < utf + FRAME && MayWrite(writable, utf) && MayWrite(writable, utf + FRAME - 1) ensures MayWrite(writable, a) {
      assert a / PGSIZE == utf / PGSIZE || a / PGSIZE == (utf + FRAME - 1) / PGSIZE;
    }
  }

  /** page_fault_handler for a fault in user mode: fills in the frame, utf_err with the trap number, and goes on in the
      upcall with esp at the frame. ok is false, and the environment destroyed, without an upcall or if it may not write
      the frame, as when the exception stack has overflowed into a page that is not mapped. */
  method PushFrame(m: Mem, c: Cpu, oesp: Word, faultVa: Word, upcall: Word, writable: set<nat>) returns (ok: bool, m': Mem, c': Cpu)
    ensures ok <==> upcall != 0 && MayWriteFrame(writable, FrameAt(c.esp))
    ensures ok ==> c' == c.(eip := upcall, esp := FrameAt(c.esp))
    ensures ok ==> c'.esp == if 0xEEBFF000 <= c.esp < 0xEEC00000 then c.esp - 56 else 0xEEC00000 - 52
    ensures ok ==> HoldsFrame(m', c'.esp, c) && SameOutside(m, m', c'.esp, c'.esp + FRAME)
    ensures ok ==> Load(m', c'.esp) == faultVa && Load(m', c'.esp + 4) == 14
    ensures !ok ==> m' == m && c' == c
  {
    if upcall == 0 { return false, m, c; }
    var utf: nat := UXSTACKTOP - FRAME;
    if c.esp >= BASE && c.esp < UXSTACKTOP { utf := c.esp - (FRAME + 4); }
    FrameTouchesTwoPages(writable, utf);
    if !MayWrite(writable, utf) || !MayWrite(writable, utf + FRAME - 1) { return false, m, c; }
    ok, m' := true, m;
    var ws := FrameWords(c, oesp, faultVa);
    for i := 0 to 13
      invariant forall j :: 0 <= j < i ==> Load(m', utf + 4 * j) == ws[j]
      invariant SameOutside(m, m', utf, utf + 4 * i)
    {
      ghost var m1 := m';
      m' := StoreWord(m', utf + 4 * i, ws[i]);
      StoredNext(m1, m', utf, i, ws);
    }
    FrameIsThere(m', utf, c, ws, oesp, faultVa);
    c' := c.(eip := upcall, esp := utf);
  }

  lemma StoredNext(m: Mem, m': Mem, a: nat, i: nat, ws: seq<Word>)
    requires i < |ws| && Written(m, m', a + 4 * i, ws[i])
    requires forall j :: 0 <= j < i ==> Load(m, a + 4 * j) == ws[j]
    ensures forall j :: 0 <= j < i + 1 ==> Load(m', a + 4 * j) == ws[j]
  {
    forall j | 0 <= j < i ensures Load(m', a + 4 * j) == ws[j] {
      assert Load(m', a + 4 * j) == Load(m, a + 4 * j);
    }
  }

  lemma FrameIsThere(m: Mem, utf: nat, c: Cpu, ws: seq<Word>, oesp: Word, faultVa: Word)
    requires ws == FrameWords(c, oesp, faultVa) && forall i :: 0 <= i < |ws| ==> Load(m, utf + 4 * i) == ws[i]
    ensures HoldsFrame(m, utf, c) && Load(m, utf) == faultVa && Load(m, utf + 4) == T_PGFLT
  {
    assert Load(m, utf + 4 * 0) == ws[0] && Load(m, utf + 4 * 1) == ws[1] && Load(m, utf + 4 * 2) == ws[2] && Load(m, utf + 4 * 3) == ws[3] && Load(m, utf + 4 * 4) == ws[4];
    assert Load(m, utf + 4 * 6) == ws[6] && Load(m, utf + 4 * 7) == ws[7] && Load(m, utf + 4 * 8) == ws[8] && Load(m, utf + 4 * 9) == ws[9];
    assert Load(m, utf + 4 * 10) == ws[10] && Load(m, utf + 4 * 11) == ws[11] && Load(m, utf + 4 * 12) == ws[12];
  }

  // ----- _pgfault_upcall, after the handler's return -----

  /** Storing the return address just below the trap-time esp t leaves the rest of the frame at utf alone. */
  predicate Clear(t: nat, utf: nat) {
    4 <= t && (t <= utf + 8 || utf + FRAME + 4 <= t)
  }

  /** The return address lands on the frame's own esp word, from byte t - utf - FRAME on. */
  predicate AtTop(t: nat, utf: nat) {
    utf + FRAME <= t < utf + FRAME + 4
  }

  /** Byte i of a word */
  function ByteOf(w: Word, i: nat): Byte {
    if i == 0 then w % 0x100
    else if i == 1 then w / 0x100 % 0x100
    else if i == 2 then w / 0x10000 % 0x100
    else w / 0x1000000 % 0x100
  }

  function Sum(b0: Byte, b1: Byte, b2: Byte, b3: Byte): Word {
    b0 + 0x100 * b1 + 0x10000 * b2 + 0x1000000 * b3
  }

  /** Byte j of the word w with x laid over its bytes from the k-th on */
  function Laid(w: Word, k: nat, x: Word, j: nat): Byte {
    if j < k then ByteOf(w, j) else ByteOf(x, j - k)
  }

  /** The low bytes of x are those of w from the k-th on. For k == 0 that is x == w. */
  predicate Agree(w: Word, k: nat, x: Word) {
    forall j :: k <= j < 4 ==> ByteOf(w, j) == Laid(w, k, x, j)
  }

  /** The trap-time state can come back: the return address is clear of the frame, or is what the lowered esp word
      holds where it lands. For t == utf + FRAME that is eip == t - 4. */
  predicate Restorable(t: Word, utf: nat, eip: Word) {
    Clear(t, utf) || (4 <= t && AtTop(t, utf) && Agree(t - 4, t - utf - FRAME, eip))
  }

  /** c is the state in the frame at utf; only the frame's esp word and the word below that esp changed. */
  ghost predicate Unwound(m: Mem, utf: nat, m': Mem, c: Cpu) {
    && HoldsFrame(m, utf, c)
    && forall a: nat :: !(utf + 48 <= a < utf + 52) && !(c.esp - 4 <= a < c.esp) ==> ByteAt(m', a) == ByteAt(m, a)
  }

  predicate HoldsRegs(m: Mem, utf: nat, c: Cpu) {
    && Load(m, utf + 8) == c.edi && Load(m, utf + 12) == c.esi && Load(m, utf + 16) == c.ebp
    && Load(m, utf + 24) == c.ebx && Load(m, utf + 28) == c.edx && Load(m, utf + 32) == c.ecx && Load(m, utf + 36) == c.eax
    && Load(m, utf + 44) == c.eflags
  }

  /** The return path, one assignment per instruction, with esp at the frame: room for the return address is made
      on the trap-time stack, whose lowered pointer goes back into the frame, and the trap-time eip is put there. The
      frame's state comes back if that word is clear of the frame. For a frame where the kernel puts it, that is all but
      four trap-time esps, and for those it comes back iff the two words agree where they overlap. */
  method Unwind(m: Mem, utf: nat) returns (m': Mem, c: Cpu)
    requires utf + FRAME < WORD && 4 <= Load(m, utf + 48)
    ensures Clear(Load(m, utf + 48), utf) ==> Unwound(m, utf, m', c)
    ensures utf == FrameAt(Load(m, utf + 48)) ==>
              (Unwound(m, utf, m', c) <==> Restorable(Load(m, utf + 48), utf, Load(m, utf + 40)))
    ensures utf == FrameAt(Load(m, utf + 48)) ==>
              (HoldsFrame(m, utf, c) <==> Restorable(Load(m, utf + 48), utf, Load(m, utf + 40)))
    ensures Load(m, utf + 48) == utf + FRAME ==> c.esp == (Load(m, utf + 40) + 4) % WORD
  {
    var esp := utf;
    var ebp: Word := Load(m, esp + 48);
    ghost var t := ebp;
    ebp := ebp - 4;
    var m1 := StoreWord(m, esp + 48, ebp);
    var eax := Load(m1, esp + 40);
    m' := StoreWord(m1, ebp, eax);
    c := PopFrame(m', esp);
    UnwindIs(m, m1, m', utf, t, c);
  }

  /** What the two stores and the pops come to */
  lemma UnwindIs(m: Mem, m1: Mem, m': Mem, utf: nat, t: Word, c: Cpu)
    requires 4 <= t && t == Load(m, utf + 48)
    requires Written(m, m1, utf + 48, t - 4) && Written(m1, m', t - 4, Load(m1, utf + 40))
    requires SameOutside(m, m1, utf + 48, utf + 52) && SameOutside(m1, m', t - 4, t)
    requires HoldsRegs(m', utf, c) && c.esp == (Load(m', utf + 48) + 4) % WORD && c.eip == Load(m', Load(m', utf + 48))
    ensures Clear(t, utf) ==> Unwound(m, utf, m', c)
    ensures utf == FrameAt(t) ==> (Unwound(m, utf, m', c) <==> Restorable(t, utf, Load(m, utf + 40)))
    ensures utf == FrameAt(t) ==> (HoldsFrame(m, utf, c) <==> Restorable(t, utf, Load(m, utf + 40)))
    ensures t == utf + FRAME ==> c.esp == (Load(m, utf + 40) + 4) % WORD
  {
    if Clear(t, utf) { UnwindRestores(m, m1, m', utf, t, c); }
    else if AtTop(t, utf) { UnwindOverlaps(m, m1, m', utf, t, c); }
    else { ClearUnlessAtTheTop(t); }
    if t == utf + FRAME { UnwindOverwrites(m, m1, m', utf, t, c); }
  }

  /** The rest: everything is popped, the last two words from the adjusted trap-time stack. */
  method PopFrame(m: Mem, utf: nat) returns (c: Cpu)
    ensures HoldsRegs(m, utf, c) && c.esp == (Load(m, utf + 48) + 4) % WORD && c.eip == Load(m, Load(m, utf + 48))
  {
    var esp := utf;
    esp := esp + 8;   // past the fault address and the error word
    var edi, esi, ebp := Load(m, esp), Load(m, esp + 4), Load(m, esp + 8);   // esp itself is not popped
    var ebx, edx, ecx, eax := Load(m, esp + 16), Load(m, esp + 20), Load(m, esp + 24), Load(m, esp + 28);
    esp := esp + 32;
    esp := esp + 4;   // past the trap-time eip
    var eflags := Load(m, esp);
    esp := esp + 4;
    esp := Load(m, esp);   // to the trap-time stack
    var eip := Load(m, esp);   // the return address put there
    var back: Word := (esp + 4) % WORD;
    c := Cpu(edi, esi, ebp, ebx, edx, ecx, eax, eip, eflags, back);
  }

  lemma UnwindRestores(m: Mem, m1: Mem, m': Mem, utf: nat, t: Word, c: Cpu)
    requires Clear(t, utf) && t == Load(m, utf + 48)
    requires Written(m, m1, utf + 48, t - 4) && Written(m1, m', t - 4, Load(m1, utf + 40))
    requires SameOutside(m, m1, utf + 48, utf + 52) && SameOutside(m1, m', t - 4, t)
    requires HoldsRegs(m', utf, c) && c.esp == (Load(m', utf + 48) + 4) % WORD && c.eip == Load(m', Load(m', utf + 48))
    ensures Unwound(m, utf, m', c)
  {
    EspAndEip(m, m1, m', utf, t, c);
    RegsKept(m, m1, m', utf, t, c);
    OnlyTwoWords(m, m1, m', utf, t);
  }

  lemma EspAndEip(m: Mem, m1: Mem, m': Mem, utf: nat, t: Word, c: Cpu)
    requires Clear(t, utf) && Written(m, m1, utf + 48, t - 4) && Written(m1, m', t - 4, Load(m1, utf + 40))
    requires c.esp == (Load(m', utf + 48) + 4) % WORD && c.eip == Load(m', Load(m', utf + 48))
    ensures c.esp == t && c.eip == Load(m, utf + 40)
  {
    assert Load(m', utf + 48) == Load(m1, utf + 48) == t - 4;
    assert c.eip == Load(m1, utf + 40) == Load(m, utf + 40);
  }

  lemma SumBytes(w: Word, b0: Byte, b1: Byte, b2: Byte, b3: Byte)
    requires w == Sum(b0, b1, b2, b3)
    ensures ByteOf(w, 0) == b0 && ByteOf(w, 1) == b1 && ByteOf(w, 2) == b2 && ByteOf(w, 3) == b3
  {
    var high: nat := b2 + 0x100 * b3;
    var upper: nat := b1 + 0x100 * high;
    assert w == b0 + 0x100 * upper;
    assert w / 0x100 == upper && upper / 0x100 == high;
    assert w / 0x10000 == high;
    assert w / 0x1000000 == high / 0x100;
  }

  lemma BytesMakeWord(w: Word)
    ensures w == Sum(ByteOf(w, 0), ByteOf(w, 1), ByteOf(w, 2), ByteOf(w, 3))
  {
    Bytes(w);
  }

  /** The bytes at a are those of w. */
  predicate HasWord(m: Mem, a: nat, w: Word) {
    && ByteAt(m, a) == ByteOf(w, 0) && ByteAt(m, a + 1) == ByteOf(w, 1)
    && ByteAt(m, a + 2) == ByteOf(w, 2) && ByteAt(m, a + 3) == ByteOf(w, 3)
  }

  lemma LoadHasWord(m: Mem, a: nat)
    ensures HasWord(m, a, Load(m, a))
  {
    SumBytes(Load(m, a), ByteAt(m, a), ByteAt(m, a + 1), ByteAt(m, a + 2), ByteAt(m, a + 3));
  }

  /** v has the bytes of w with x laid over those from the k-th on. */
  predicate IsLaid(v: Word, w: Word, k: nat, x: Word) {
    ByteOf(v, 0) == Laid(w, k, x, 0) && ByteOf(v, 1) == Laid(w, k, x, 1) && ByteOf(v, 2) == Laid(w, k, x, 2) && ByteOf(v, 3) == Laid(w, k, x, 3)
  }

  /** At a there was w; x has been written at a + k; now v is at a. */
  lemma LaidOver(m1: Mem, m': Mem, a: nat, k: nat, v: Word, w: Word, x: Word)
    requires k < 4 && SameOutside(m1, m', a + k, a + k + 4)
    requires HasWord(m1, a, w) && HasWord(m', a + k, x) && HasWord(m', a, v)
    ensures IsLaid(v, w, k, x)
  {
  }

  lemma LaidIsSame(v: Word, w: Word, k: nat, x: Word)
    requires k < 4 && IsLaid(v, w, k, x)
    ensures v == w <==> Agree(w, k, x)
  {
    BytesMakeWord(v);
    BytesMakeWord(w);
    if Agree(w, k, x) {
      forall j: nat | j < 4 ensures Laid(w, k, x, j) == ByteOf(w, j) {}
    }
  }

  /** The state comes back iff the overlaid word is still t - 4. */
  lemma UnwindOverlaps(m: Mem, m1: Mem, m': Mem, utf: nat, t: Word, c: Cpu)
    requires 4 <= t && AtTop(t, utf) && t == Load(m, utf + 48)
    requires Written(m, m1, utf + 48, t - 4) && Written(m1, m', t - 4, Load(m1, utf + 40))
    requires SameOutside(m, m1, utf + 48, utf + 52) && SameOutside(m1, m', t - 4, t)
    requires HoldsRegs(m', utf, c) && c.esp == (Load(m', utf + 48) + 4) % WORD && c.eip == Load(m', Load(m', utf + 48))
    ensures if Restorable(t, utf, Load(m, utf + 40)) then Unwound(m, utf, m', c) else !HoldsFrame(m, utf, c)
  {
    EspIsBack(m, m1, m', utf, t, c.esp);
    OnlyAgreement(t, utf, Load(m, utf + 40));
    if c.esp == t { RestoredAtTop(m, m1, m', utf, t, c); }
  }

  lemma OnlyAgreement(t: Word, utf: nat, eip: Word)
    requires 4 <= t && AtTop(t, utf)
    ensures Restorable(t, utf, eip) <==> Agree(t - 4, t - utf - FRAME, eip)
  {
  }

  /** For the esp UXSTACKTOP itself: the state comes back iff the trap-time eip is the address of the word below. */
  lemma AtTheTop(eip: Word)
    ensures Restorable(UXSTACKTOP, FrameAt(UXSTACKTOP), eip) <==> eip == UXSTACKTOP - 4
  {
    OnlyAgreement(UXSTACKTOP, FrameAt(UXSTACKTOP), eip);
    BytesMakeWord(eip);
    BytesMakeWord(UXSTACKTOP - 4);
    var w: Word := UXSTACKTOP - 4;
    assert Agree(w, 0, eip) ==>
        Laid(w, 0, eip, 0) == ByteOf(w, 0) && Laid(w, 0, eip, 1) == ByteOf(w, 1) && Laid(w, 0, eip, 2) == ByteOf(w, 2) && Laid(w, 0, eip, 3) == ByteOf(w, 3);
  }

  /** At utf + FRAME exactly the return address replaces the esp word. */
  lemma UnwindOverwrites(m: Mem, m1: Mem, m': Mem, utf: nat, t: Word, c: Cpu)
    requires t == utf + FRAME && Written(m, m1, utf + 48, t - 4) && Written(m1, m', t - 4, Load(m1, utf + 40))
    requires c.esp == (Load(m', utf + 48) + 4) % WORD
    ensures c.esp == (Load(m, utf + 40) + 4) % WORD
  {
    assert Load(m1, utf + 40) == Load(m, utf + 40);
  }

  lemma RestoredAtTop(m: Mem, m1: Mem, m': Mem, utf: nat, t: Word, c: Cpu)
    requires 4 <= t && AtTop(t, utf) && t == Load(m, utf + 48) && c.esp == t
    requires Written(m, m1, utf + 48, t - 4) && Written(m1, m', t - 4, Load(m1, utf + 40)) && Load(m1, utf + 40) == Load(m, utf + 40)
    requires SameOutside(m, m1, utf + 48, utf + 52) && SameOutside(m1, m', t - 4, t)
    requires HoldsRegs(m', utf, c) && Load(m', utf + 48) == t - 4 && c.eip == Load(m', t - 4)
    ensures Unwound(m, utf, m', c)
  {
    RegsKept(m, m1, m', utf, t, c);
    OnlyTwoWords(m, m1, m', utf, t);
  }

  lemma EspIsBack(m: Mem, m1: Mem, m': Mem, utf: nat, t: Word, esp: Word)
    requires 4 <= t && AtTop(t, utf) && Written(m, m1, utf + 48, t - 4) && Written(m1, m', t - 4, Load(m1, utf + 40))
    requires SameOutside(m1, m', t - 4, t) && esp == (Load(m', utf + 48) + 4) % WORD
    ensures Load(m1, utf + 40) == Load(m, utf + 40) && (esp == t <==> Load(m', utf + 48) == t - 4)
    ensures esp == t <==> Agree(t - 4, t - utf - FRAME, Load(m, utf + 40))
  {
    var k, v, x := t - utf - FRAME, Load(m', utf + 48), Load(m, utf + 40);
    assert Load(m1, utf + 40) == x;
    Popped(m1, m', utf + 48, k);
    LaidIsSame(v, t - 4, k, x);
    EspBack(t, v, esp);
  }

  lemma Popped(m1: Mem, m': Mem, a: nat, k: nat)
    requires k < 4 && SameOutside(m1, m', a + k, a + k + 4)
    ensures IsLaid(Load(m', a), Load(m1, a), k, Load(m', a + k))
  {
    LoadHasWord(m1, a);
    LoadHasWord(m', a + k);
    LoadHasWord(m', a);
    LaidOver(m1, m', a, k, Load(m', a), Load(m1, a), Load(m', a + k));
  }

  lemma EspBack(t: Word, popped: Word, esp: Word)
    requires 4 <= t && esp == (popped + 4) % WORD
    ensures esp == t <==> popped == t - 4
  {
  }

  lemma OnlyTwoWords(m: Mem, m1: Mem, m': Mem, utf: nat, t: nat)
    requires t >= 4 && SameOutside(m, m1, utf + 48, utf + 52) && SameOutside(m1, m', t - 4, t)
    ensures forall a: nat :: !(utf + 48 <= a < utf + 52) && !(t - 4 <= a < t) ==> ByteAt(m', a) == ByteAt(m, a)
  {
  }

  lemma RegsKept(m: Mem, m1: Mem, m': Mem, utf: nat, t: Word, c: Cpu)
    requires Clear(t, utf) || (4 <= t && AtTop(t, utf))
    requires Written(m, m1, utf + 48, t - 4) && Written(m1, m', t - 4, Load(m1, utf + 40))
    requires HoldsRegs(m', utf, c)
    ensures HoldsRegs(m, utf, c)
  {
    forall b: nat | utf + 8 <= b && b + 4 <= utf + 48 ensures Load(m', b) == Load(m, b) {
      assert Load(m', b) == Load(m1, b) && Load(m1, b) == Load(m, b);
    }
  }

  // ----- nesting -----

  /** What an environment does on its exception stack, with the states it passes through: work of its
      own, or a fault that is taken and handled (m1, c1 after the kernel's push, m2, c2 when the
      handler returns, m3, c3 after the unwind). */
  datatype Event =
    | Own(m: Mem, c: Cpu)
    | Fault(m1: Mem, c1: Cpu, body: Events, m2: Mem, c2: Cpu, m3: Mem, c3: Cpu)

  datatype Events = Done | Then(first: Event, rest: Events)

  ghost predicate KeptAbove(m: Mem, m': Mem, top: nat) {
    forall a: nat :: top <= a < UXSTACKTOP ==> ByteAt(m', a) == ByteAt(m, a)
  }

  /** The fault taken in state (m, c) with its handling */
  ghost predicate Handled(m: Mem, c: Cpu, f: Event)
    requires f.Fault?
    decreases f, 0
  {
    var utf := FrameAt(c.esp);
    && HoldsFrame(f.m1, utf, c) && SameOutside(m, f.m1, utf, utf + FRAME) && f.c1.esp == utf
    && Happens(f.m1, f.c1, utf, f.body, f.m2, f.c2) && f.c2.esp == utf
    && Unwound(f.m2, utf, f.m3, f.c3)
  }

  /** From (m, c) to (m', c') through the events, using only what lies below top */
  ghost predicate Happens(m: Mem, c: Cpu, top: nat, evs: Events, m': Mem, c': Cpu)
    decreases evs, 1
  {
    match evs
    case Done => m' == m && c' == c
    case Then(Own(m1, c1), rest) => KeptAbove(m, m1, top) && Happens(m1, c1, top, rest, m', c')
    case Then(Fault(m1, c1, body, m2, c2, m3, c3), rest) =>
      && OnExceptionStack(c.esp) && c.esp <= top
      && Handled(m, c, evs.first)
      && Happens(m3, c3, top, rest, m', c')
  }

  /** However deep faults nest, nothing above is touched. */
  lemma {:induction false} EventsKeepAbove(m: Mem, c: Cpu, top: nat, evs: Events, m': Mem, c': Cpu)
    requires Happens(m, c, top, evs, m', c')
    ensures KeptAbove(m, m', top)
    decreases evs, 1
  {
    match evs
    case Done =>
    case Then(Own(m1, c1), rest) => EventsKeepAbove(m1, c1, top, rest, m', c');
    case Then(Fault(_, _, _, _, _, m3, c3), rest) =>
      NestedFaultIsInvisible(m, c, evs.first);
      EventsKeepAbove(m3, c3, top, rest, m', c');
  }

  /** A fault taken on the exception stack puts its frame and spare word right below the trap-time
      esp, restores every register, and leaves all that is above that esp as it was, whatever faults
      its handler takes. */
  lemma {:induction false} NestedFaultIsInvisible(m: Mem, c: Cpu, f: Event)
    requires f.Fault? && OnExceptionStack(c.esp) && Handled(m, c, f)
    ensures f.c3 == c && KeptAbove(m, f.m3, c.esp) && FrameAt(c.esp) + FRAME + 4 == c.esp
    decreases f, 0
  {
    var utf := FrameAt(c.esp);
    EventsKeepAbove(f.m1, f.c1, utf, f.body, f.m2, f.c2);
    FrameKept(f.m1, f.m2, utf, c);
  }

  lemma FrameKept(m: Mem, m': Mem, utf: nat, c: Cpu)
    requires KeptAbove(m, m', utf) && utf + FRAME <= UXSTACKTOP && HoldsFrame(m, utf, c)
    ensures HoldsFrame(m', utf, c)
  {
    forall b: nat | utf <= b && b + 4 <= UXSTACKTOP ensures Load(m', b) == Load(m, b) {}
  }

  /** A first fault, from the normal stack: the registers come back whatever faults were nested in its handler. */
  lemma FirstFaultIsInvisible(m: Mem, c: Cpu, f: Event)
    requires f.Fault? && !OnExceptionStack(c.esp) && Handled(m, c, f)
    ensures f.c3 == c
  {
    var utf := FrameAt(c.esp);
    EventsKeepAbove(f.m1, f.c1, utf, f.body, f.m2, f.c2);
    FrameKept(f.m1, f.m2, utf, c);
  }

  /** For every other trap-time esp the return address is clear of the frame. */
  lemma ClearUnlessAtTheTop(esp: nat)
    requires 4 <= esp
    ensures Clear(esp, FrameAt(esp)) <==> !(UXSTACKTOP <= esp < UXSTACKTOP + 4)
  {
  }
}
