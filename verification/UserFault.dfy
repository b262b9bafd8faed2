/** User-level page faults: the frame page_fault_handler pushes (kern/trap.c) and the tail of _pgfault_upcall
    (lib/pfentry.S) that undoes it. */
module UserFault {
  import opened Types
  import opened Layout

  /** User memory by byte address; what is not in the map reads as 0. */
  type Mem = map<int, Byte>

  /** Reduction modulo 2^32 of a sum or difference of two words. */
  function Wrap(a: int): Word
    requires -0x1_0000_0000 <= a < 0x2_0000_0000
  {
    if a < 0 then a + 0x1_0000_0000 else if a >= 0x1_0000_0000 then a - 0x1_0000_0000 else a
  }

  function Load8(m: Mem, a: int): Byte { if a in m then m[a] else 0 }

  /** The number stored at a in n bytes, least significant first. */
  function LoadBytes(m: Mem, a: int, n: nat): nat
    decreases n
  {
    if n == 0 then 0 else Load8(m, a) + 0x100 * LoadBytes(m, a + 1, n - 1)
  }

  lemma WordBound(m: Mem, a: int)
    ensures LoadBytes(m, a, 4) < 0x1_0000_0000
  {
    assert LoadBytes(m, a + 3, 1) < 0x100;
    assert LoadBytes(m, a + 2, 2) < 0x1_0000;
  }

  const WORD: nat := 4

  function Load32(m: Mem, a: int): Word
  {
    WordBound(m, a);
    LoadBytes(m, a, WORD)
  }

  lemma {:induction false} SameBytes(m: Mem, n: Mem, a: int, k: nat)
    requires forall x: int :: a <= x < a + k ==> Load8(n, x) == Load8(m, x)
    ensures LoadBytes(n, a, k) == LoadBytes(m, a, k)
    decreases k
  {
    if k > 0 { SameBytes(m, n, a + 1, k - 1); }
  }

  predicate InWord(x: int, a: int) { a <= x < a + 4 }

  /** The words at a and b share no byte. */
  predicate Apart(a: int, b: int) { a + 4 <= b || b + 4 <= a }

  ghost predicate SameOutside(m: Mem, n: Mem, lo: int, hi: int)
  {
    forall x: int :: x < lo || x >= hi ==> Load8(n, x) == Load8(m, x)
  }

  /** n is m with the word v stored at a. */
  ghost predicate Wrote(m: Mem, n: Mem, a: int, v: Word) { Load32(n, a) == v && SameOutside(m, n, a, a + 4) }

  /** A word can be stored anywhere. */
  lemma StoreExists(m: Mem, a: int, v: Word) returns (n: Mem)
    ensures Wrote(m, n, a, v)
  {
    n := m[a := v % 0x100][a + 1 := v / 0x100 % 0x100][a + 2 := v / 0x1_0000 % 0x100][a + 3 := v / 0x100_0000];
    BytesOfWord(v);
    FourBytes(n, a, v % 0x100, v / 0x100 % 0x100, v / 0x1_0000 % 0x100, v / 0x100_0000);
  }

  lemma BytesOfWord(v: Word)
    ensures v == v % 0x100 + 0x100 * (v / 0x100 % 0x100 + 0x100 * (v / 0x1_0000 % 0x100 + 0x100 * (v / 0x100_0000)))
  {
    assert v / 0x1_0000 == v / 0x1_0000 % 0x100 + 0x100 * (v / 0x100_0000);
    assert v / 0x100 == v / 0x100 % 0x100 + 0x100 * (v / 0x1_0000);
  }

  lemma FourBytes(m: Mem, a: int, b0: Byte, b1: Byte, b2: Byte, b3: Byte)
    requires Load8(m, a) == b0 && Load8(m, a + 1) == b1 && Load8(m, a + 2) == b2 && Load8(m, a + 3) == b3
    ensures Load32(m, a) == b0 + 0x100 * (b1 + 0x100 * (b2 + 0x100 * b3))
  {
    assert LoadBytes(m, a + 3, 1) == b3;
    assert LoadBytes(m, a + 2, 2) == b2 + 0x100 * b3;
    assert LoadBytes(m, a + 1, 3) == b1 + 0x100 * (b2 + 0x100 * b3);
    assert LoadBytes(m, a, 4) == b0 + 0x100 * (b1 + 0x100 * (b2 + 0x100 * b3));
  }

  lemma WroteApart(m: Mem, n: Mem, a: int, v: Word, b: int)
    requires Wrote(m, n, a, v) && Apart(a, b)
    ensures Load32(n, b) == Load32(m, b)
  {
    SameBytes(m, n, b, WORD);
  }

  /** The registers popal restores, in pushal order; oesp is the one it skips. */
  datatype PushRegs = PushRegs(edi: Word, esi: Word, ebp: Word, oesp: Word, ebx: Word, edx: Word, ecx: Word, eax: Word)

  /** What a return must restore. */
  datatype Trap = Trap(regs: PushRegs, eip: Word, eflags: Word, esp: Word)

  /** Equal but for the register popal skips. */
  predicate Restored(t: Trap, u: Trap) { t == u.(regs := u.regs.(oesp := t.regs.oesp)) }

  const SIZE: nat := 52 // sizeof (struct UTrapframe)
  const XBASE: nat := UXSTACKTOP - PGSIZE

  /** Where the kernel puts the frame: below the trap-time stack and a scratch word if already on the exception stack. */
  function FrameAddr(esp: Word): int
  {
    if XBASE <= esp < UXSTACKTOP then esp - SIZE - 4 else UXSTACKTOP - SIZE
  }

  /** Word k of a frame for t whose last word is esp, for the words the return pops: seven registers, eip, eflags, esp. */
  function Field(t: Trap, esp: Word, k: int): Word
  {
    match k
    case 2 => t.regs.edi
    case 3 => t.regs.esi
    case 4 => t.regs.ebp
    case 6 => t.regs.ebx
    case 7 => t.regs.edx
    case 8 => t.regs.ecx
    case 9 => t.regs.eax
    case 10 => t.eip
    case 11 => t.eflags
    case _ => esp
  }

  ghost predicate Holds(m: Mem, a: int, t: Trap, esp: Word)
  {
    forall k :: 2 <= k <= 12 && k != 5 ==> Load32(m, a + 4 * k) == Field(t, esp, k)
  }

  /** A whole struct UTrapframe at a, and nothing else changed. */
  ghost predicate Pushed(m: Mem, n: Mem, a: int, t: Trap, va: Word, err: Word)
  {
    && Load32(n, a) == va && Load32(n, a + 4) == err && Load32(n, a + 20) == t.regs.oesp
    && Holds(n, a, t, t.esp) && SameOutside(m, n, a, a + SIZE)
  }

  /** Memory and registers. */
  datatype Cpu = Cpu(mem: Mem, t: Trap)

  /** pfentry.S up to the store: eax is the trap-time esp less 4, also put back in the frame; ebx is the trap-time eip;
      subl leaves some flags. */
  ghost predicate Planted(c: Cpu, d: Cpu)
  {
    var a := c.t.esp;
    var v := Wrap(Load32(c.mem, a + 0x30) - 4);
    && Wrote(c.mem, d.mem, a + 0x30, v)
    && d.t == c.t.(regs := c.t.regs.(eax := v, ebx := Load32(d.mem, a + 0x28)), eflags := d.t.eflags)
  }

  /** From the store of eip to the trap-time stack, through popal, popfl and pop esp, to ret. */
  ghost predicate Finished(c: Cpu, d: Cpu)
  {
    var a, m := c.t.esp, d.mem;
    var esp := Load32(m, a + 48);
    && Wrote(c.mem, m, c.t.regs.eax, c.t.regs.ebx)
    && d.t == Trap(PushRegs(Load32(m, a + 8), Load32(m, a + 12), Load32(m, a + 16), c.t.regs.oesp,
                            Load32(m, a + 24), Load32(m, a + 28), Load32(m, a + 32), Load32(m, a + 36)),
                   Load32(m, esp), Load32(m, a + 44), Wrap(esp + 4))
  }

  /** The word below esp does not touch the frame at a. */
  predicate Clear(esp: Word, a: int) { Wrap(esp - 4) + 4 <= a || Wrap(esp - 4) >= a + SIZE }

  lemma HoldsAcross(m: Mem, n: Mem, a: int, t: Trap, esp: Word)
    requires Holds(m, a, t, esp) && forall x :: a <= x < a + SIZE ==> Load8(n, x) == Load8(m, x)
    ensures Holds(n, a, t, esp)
  {
    forall k | 2 <= k <= 12 && k != 5 ensures Load32(n, a + 4 * k) == Field(t, esp, k) { SameBytes(m, n, a + 4 * k, WORD); }
  }

  lemma WrapBack(esp: Word)
    ensures Wrap(Wrap(esp - 4) + 4) == esp
  {
  }

  lemma NewLastWord(m: Mem, n: Mem, a: int, t: Trap, esp: Word, v: Word)
    requires Holds(m, a, t, esp) && Wrote(m, n, a + 48, v)
    ensures Holds(n, a, t, v)
  {
    forall k | 2 <= k < 12 && k != 5 ensures Load32(n, a + 4 * k) == Field(t, v, k) {
      WroteApart(m, n, a + 48, v, a + 4 * k);
      assert Load32(m, a + 4 * k) == Field(t, esp, k);
    }
  }

  lemma PlantOk(c: Cpu, d: Cpu, t: Trap)
    requires Planted(c, d) && Holds(c.mem, c.t.esp, t, t.esp)
    ensures Holds(d.mem, c.t.esp, t, Wrap(t.esp - 4))
    ensures d.t.regs.eax == Wrap(t.esp - 4) && d.t.regs.ebx == t.eip && d.t.esp == c.t.esp
  {
    assert Field(t, t.esp, 10) == t.eip && Field(t, t.esp, 12) == t.esp;
    NewLastWord(c.mem, d.mem, c.t.esp, t, t.esp, Wrap(t.esp - 4));
    assert Field(t, Wrap(t.esp - 4), 10) == t.eip;
  }

  /** What Finished takes from a frame: all its registers but esp and eip. */
  predicate Popped(d: Trap, t: Trap)
  {
    && d.regs.edi == t.regs.edi && d.regs.esi == t.regs.esi && d.regs.ebp == t.regs.ebp && d.regs.ebx == t.regs.ebx
    && d.regs.edx == t.regs.edx && d.regs.ecx == t.regs.ecx && d.regs.eax == t.regs.eax && d.eflags == t.eflags
  }

  lemma FrameWords(m: Mem, a: int, t: Trap, esp: Word)
    requires Holds(m, a, t, esp)
    ensures Load32(m, a + 8) == t.regs.edi && Load32(m, a + 12) == t.regs.esi && Load32(m, a + 16) == t.regs.ebp
    ensures Load32(m, a + 24) == t.regs.ebx && Load32(m, a + 28) == t.regs.edx && Load32(m, a + 32) == t.regs.ecx
    ensures Load32(m, a + 36) == t.regs.eax && Load32(m, a + 44) == t.eflags && Load32(m, a + 48) == esp
  {
    assert Load32(m, a + 4 * 2) == Field(t, esp, 2) && Load32(m, a + 4 * 3) == Field(t, esp, 3);
    assert Load32(m, a + 4 * 4) == Field(t, esp, 4) && Load32(m, a + 4 * 6) == Field(t, esp, 6);
    assert Load32(m, a + 4 * 7) == Field(t, esp, 7) && Load32(m, a + 4 * 8) == Field(t, esp, 8);
    assert Load32(m, a + 4 * 9) == Field(t, esp, 9) && Load32(m, a + 4 * 11) == Field(t, esp, 11);
    assert Load32(m, a + 4 * 12) == Field(t, esp, 12);
  }

  lemma FinishPops(c: Cpu, d: Cpu, t: Trap, esp: Word)
    requires Finished(c, d) && Holds(d.mem, c.t.esp, t, esp)
    ensures Popped(d.t, t) && d.t.eip == Load32(d.mem, esp) && d.t.esp == Wrap(esp + 4)
  {
    assert Load32(d.mem, c.t.esp + 48) == esp by { FrameWords(d.mem, c.t.esp, t, esp); }
    assert Popped(d.t, t) by { FinishRegs(c, d, t, esp); }
  }

  lemma FinishRegs(c: Cpu, d: Cpu, t: Trap, esp: Word)
    requires Finished(c, d) && Holds(d.mem, c.t.esp, t, esp)
    ensures Popped(d.t, t)
  {
    FrameWords(d.mem, c.t.esp, t, esp);
  }

  lemma FinishFrame(c: Cpu, d: Cpu, t: Trap)
    requires Finished(c, d) && Holds(c.mem, c.t.esp, t, Wrap(t.esp - 4))
    requires c.t.regs.eax == Wrap(t.esp - 4) && Clear(t.esp, c.t.esp)
    ensures Holds(d.mem, c.t.esp, t, Wrap(t.esp - 4))
  {
    HoldsAcross(c.mem, d.mem, c.t.esp, t, Wrap(t.esp - 4));
  }

  lemma FinishOk(c: Cpu, d: Cpu, t: Trap)
    requires Finished(c, d) && Holds(c.mem, c.t.esp, t, Wrap(t.esp - 4))
    requires c.t.regs.eax == Wrap(t.esp - 4) && c.t.regs.ebx == t.eip && Clear(t.esp, c.t.esp)
    ensures Restored(d.t, t)
  {
    var w := Wrap(t.esp - 4);
    FinishFrame(c, d, t);
    FinishPops(c, d, t, w);
    assert d.t.eip == t.eip;
    assert d.t.esp == t.esp by { WrapBack(t.esp); }
  }

  lemma FrameIsClear(esp: Word)
    requires esp < UXSTACKTOP || esp >= UXSTACKTOP + 4
    ensures Clear(esp, FrameAddr(esp))
  {
  }

  // ---------- one fault ----------

  /** A fault at t whose handler leaves its frame as the kernel pushed it returns exactly to t, and the tail changes,
      outside the frame, only the word below the trap-time esp. */
  lemma RoundTrip(m: Mem, n: Mem, t: Trap, va: Word, err: Word, c: Cpu, d: Cpu, r: Cpu)
    requires t.esp < UXSTACKTOP || t.esp >= UXSTACKTOP + 4
    requires var a := FrameAddr(t.esp);
      && Pushed(m, n, a, t, va, err)
      && c.t.esp == a && (forall x :: a <= x < a + SIZE ==> Load8(c.mem, x) == Load8(n, x))
    requires Planted(c, d) && Finished(d, r)
    ensures Restored(r.t, t)
    ensures forall x: int :: !InWord(x, FrameAddr(t.esp) + 48) && !InWord(x, Wrap(t.esp - 4)) ==> Load8(r.mem, x) == Load8(c.mem, x)
  {
    HoldsAcross(n, c.mem, FrameAddr(t.esp), t, t.esp);
    PlantOk(c, d, t);
    FrameIsClear(t.esp);
    FinishOk(d, r, t);
  }

  /** At trap-time esp == UXSTACKTOP the planted eip overwrites the saved esp: the return goes to t only if the two
      values happen to be the same. */
  lemma EmptyExceptionStack(c: Cpu, d: Cpu, r: Cpu, t: Trap)
    requires t.esp == UXSTACKTOP && c.t.esp == UXSTACKTOP - SIZE
    requires Holds(c.mem, c.t.esp, t, t.esp) && Planted(c, d) && Finished(d, r)
    ensures Restored(r.t, t) <==> t.eip == UXSTACKTOP - 4
  {
    PlantAtTop(c, d, t);
    CollidingWord(d, r, t);
    RestoredAtTop(r.mem, r.t, t);
  }

  lemma PlantAtTop(c: Cpu, d: Cpu, t: Trap)
    requires t.esp == UXSTACKTOP && Planted(c, d) && Holds(c.mem, c.t.esp, t, t.esp)
    ensures Holds(d.mem, c.t.esp, t, UXSTACKTOP - 4)
    ensures d.t.regs.eax == UXSTACKTOP - 4 && d.t.regs.ebx == t.eip && d.t.esp == c.t.esp
  {
    PlantOk(c, d, t);
  }

  lemma RestoredAtTop(m: Mem, r: Trap, t: Trap)
    requires Popped(r, t) && r.esp == Wrap(t.eip + 4) && r.eip == Load32(m, t.eip)
    requires Load32(m, UXSTACKTOP - 4) == t.eip && t.esp == UXSTACKTOP
    ensures Restored(r, t) <==> t.eip == UXSTACKTOP - 4
  {
    assert Wrap(t.eip + 4) == UXSTACKTOP <==> t.eip == UXSTACKTOP - 4;
  }

  lemma CollidingWord(d: Cpu, r: Cpu, t: Trap)
    requires d.t.esp == UXSTACKTOP - SIZE && d.t.regs.eax == UXSTACKTOP - 4 && d.t.regs.ebx == t.eip
    requires Holds(d.mem, d.t.esp, t, UXSTACKTOP - 4) && Finished(d, r)
    ensures Popped(r.t, t) && r.t.esp == Wrap(t.eip + 4) && r.t.eip == Load32(r.mem, t.eip)
    ensures Load32(r.mem, UXSTACKTOP - 4) == t.eip
  {
    NewLastWord(d.mem, r.mem, d.t.esp, t, UXSTACKTOP - 4, t.eip);
    FinishPops(d, r, t, t.eip);
  }

  /** For every trap-time stack whose top word a user program can write, the round trip is exact if and only if the
      stack is not the exception stack emptied to its very top (or eip is the address of the word that collides). */
  lemma RoundTripExactly(m: Mem, n: Mem, t: Trap, va: Word, err: Word, c: Cpu, d: Cpu, r: Cpu)
    requires 4 <= t.esp <= UTOP
    requires Pushed(m, n, FrameAddr(t.esp), t, va, err)
    requires c.t.esp == FrameAddr(t.esp) && (forall x :: c.t.esp <= x < c.t.esp + SIZE ==> Load8(c.mem, x) == Load8(n, x))
    requires Planted(c, d) && Finished(d, r)
    ensures Restored(r.t, t) <==> t.esp != UXSTACKTOP || t.eip == UXSTACKTOP - 4
  {
    if t.esp != UXSTACKTOP {
      RoundTrip(m, n, t, va, err, c, d, r);
    } else {
      HoldsAcross(n, c.mem, c.t.esp, t, t.esp);
      EmptyExceptionStack(c, d, r, t);
    }
  }
}
