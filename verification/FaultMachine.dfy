/** The two ends of a user-level page fault as instructions and assignments: page_fault_handler (kern/trap.c) and
    the tail of _pgfault_upcall (lib/pfentry.S). */
module FaultMachine {
  import opened Types
  import opened Layout
  import opened UserFault

  /** Some bytes of the frame written so far: the words of image whose indices are in done, in place at a. */
  ghost predicate Filled(m: Mem, n: Mem, a: int, image: seq<Word>, done: set<int>)
  {
    && (forall k :: k in done && 0 <= k < |image| ==> Load32(n, a + 4 * k) == image[k])
    && SameOutside(m, n, a, a + 4 * |image|)
  }

  lemma FillStep(m: Mem, n: Mem, p: Mem, a: int, image: seq<Word>, done: set<int>, j: int)
    requires Filled(m, n, a, image, done) && 0 <= j < |image| && Wrote(n, p, a + 4 * j, image[j])
    ensures Filled(m, p, a, image, done + {j})
  {
    forall k | k in done && 0 <= k < |image| && k != j ensures Load32(p, a + 4 * k) == image[k] {
      WroteApart(n, p, a + 4 * j, image[j], a + 4 * k);
    }
  }

  /** struct UTrapframe as words. */
  function Image(t: Trap, va: Word, err: Word): seq<Word>
  {
    [va, err, t.regs.edi, t.regs.esi, t.regs.ebp, t.regs.oesp, t.regs.ebx, t.regs.edx, t.regs.ecx, t.regs.eax,
     t.eip, t.eflags, t.esp]
  }

  lemma ImageWords(t: Trap, va: Word, err: Word)
    ensures var image := Image(t, va, err);
      && |image| == 13 && image[0] == va && image[1] == err
      && image[2] == t.regs.edi && image[3] == t.regs.esi && image[4] == t.regs.ebp && image[5] == t.regs.oesp
      && image[6] == t.regs.ebx && image[7] == t.regs.edx && image[8] == t.regs.ecx && image[9] == t.regs.eax
      && image[10] == t.eip && image[11] == t.eflags && image[12] == t.esp
  {
  }

  lemma FilledIsPushed(m: Mem, n: Mem, a: int, t: Trap, va: Word, err: Word, done: set<int>)
    requires Filled(m, n, a, Image(t, va, err), done) && forall k :: 0 <= k < 13 ==> k in done
    ensures Pushed(m, n, a, t, va, err)
  {
    var image := Image(t, va, err);
    assert image[0] == va && image[1] == err && image[5] == t.regs.oesp;
    forall k | 2 <= k <= 12 && k != 5 ensures Load32(n, a + 4 * k) == Field(t, t.esp, k) {
      assert image[k] == Field(t, t.esp, k);
    }
    assert 0 in done && 1 in done && 5 in done;
    assert Load32(n, a + 4 * 0) == va && Load32(n, a + 4 * 1) == err && Load32(n, a + 4 * 5) == t.regs.oesp;
  }

  /** A user may store to x, given the pages mapped writable. */
  predicate UserWritable(writable: set<int>, x: nat) { x < ULIM && PGNUM(x) in writable }

  /** The first k words of image can be stored at a. */
  lemma {:induction false} FillExists(m: Mem, a: int, image: seq<Word>, k: nat) returns (n: Mem, done: set<int>)
    requires k <= |image|
    ensures Filled(m, n, a, image, done) && forall j :: 0 <= j < k ==> j in done
    decreases k
  {
    n, done := m, {};
    if k > 0 {
      var j := k - 1;
      var before, was := FillExists(m, a, image, j);
      n := StoreExists(before, a + 4 * j, image[j]);
      FillStep(m, before, n, a, image, was, j);
      done := was + {j};
    }
  }

  /** So a frame can be pushed anywhere. */
  lemma PushExists(m: Mem, a: int, t: Trap, va: Word, err: Word) returns (n: Mem)
    ensures Pushed(m, n, a, t, va, err)
  {
    var done: set<int>;
    n, done := FillExists(m, a, Image(t, va, err), 13);
    FilledIsPushed(m, n, a, t, va, err, done);
  }

  ghost predicate FrameWritable(writable: set<int>, a: nat)
  {
    forall x :: a <= x < a + SIZE ==> UserWritable(writable, x)
  }

  /** The thirteen words at a: struct UTrapframe is fault_va, err, the eight of struct PushRegs, eip, eflags, esp. */
  function Words(m: Mem, a: int): seq<Word> { seq(13, k requires 0 <= k < 13 => Load32(m, a + 4 * k)) }

  lemma FilledWords(m: Mem, n: Mem, a: int, image: seq<Word>, done: set<int>)
    requires |image| == 13 && Filled(m, n, a, image, done) && forall k :: 0 <= k < 13 ==> k in done
    ensures Words(n, a) == image
  {
    forall k | 0 <= k < 13 ensures Words(n, a)[k] == image[k] { assert k in done; }
  }

  class Processor {
    var mem: Mem
    var writable: set<int> // pages the environment may write
    var regs: PushRegs
    var eip: Word
    var eflags: Word
    var esp: Word
    var upcall: Word       // env_pgfault_upcall
    var destroyed: bool

    function Trapped(): Trap reads this { Trap(regs, eip, eflags, esp) }

    function View(): Cpu reads this { Cpu(mem, Trapped()) }

    /** A four-byte store. */
    method Put(a: int, v: Word)
      modifies this`mem
      ensures Wrote(old(mem), mem, a, v)
    {
      mem := mem[a := v % 0x100][a + 1 := v / 0x100 % 0x100][a + 2 := v / 0x1_0000 % 0x100][a + 3 := v / 0x100_0000];
      BytesOfWord(v);
      FourBytes(mem, a, v % 0x100, v / 0x100 % 0x100, v / 0x1_0000 % 0x100, v / 0x100_0000);
    }

    /** user_mem_check for PTE_W: page by page, it accepts a range if and only if every byte of it is writable, or its end
        wraps round. */
    method UserMemCheck(va: Word, len: Word) returns (ok: bool)
      ensures ok <==> va + len >= 0x1_0000_0000 || forall x :: va <= x < va + len ==> UserWritable(writable, x)
    {
      var start: nat := va;
      var end := Wrap(va + len);
      while start < end
        invariant va <= start && (start == va || start % PGSIZE == 0)
        invariant forall x :: va <= x < end && x < start ==> UserWritable(writable, x)
      {
        if start >= ULIM || PGNUM(start) !in writable {
          assert !UserWritable(writable, start);
          return false;
        }
        ghost var was := start;
        start := start / PGSIZE * PGSIZE + PGSIZE;
        forall x | was <= x < start ensures UserWritable(writable, x) { SamePage(was, x); }
      }
      return true;
    }

    /** A user page fault: the frame is pushed and the upcall entered, or, if there is no upcall or the frame does not
        fit in writable memory, the environment is destroyed with nothing written. */
    method PageFaultHandler(va: Word, err: Word)
      modifies this
      ensures writable == old(writable) && upcall == old(upcall)
      ensures var a := FrameAddr(old(esp));
        var fits := old(upcall) != 0 && FrameWritable(old(writable), a);
        if fits then
          Pushed(old(mem), mem, a, old(Trapped()), va, err)
          && Words(mem, a) == [va, err, old(regs).edi, old(regs).esi, old(regs).ebp, old(regs).oesp, old(regs).ebx,
                               old(regs).edx, old(regs).ecx, old(regs).eax, old(eip), old(eflags), old(esp)]
          && Trapped() == old(Trapped()).(eip := old(upcall), esp := a) && destroyed == old(destroyed)
        else destroyed && View() == old(View())
    {
      if upcall != 0 {
        var utf: nat;
        if UXSTACKTOP - PGSIZE <= esp && esp < UXSTACKTOP {
          utf := esp - SIZE - 4;
        } else {
          utf := UXSTACKTOP - SIZE;
        }
        var ok := UserMemCheck(utf, SIZE);
        if ok {
          StoreFrame(utf, va, err);
          eip, esp := upcall, utf;
          return;
        }
      }
      destroyed := true;
    }

    /** One of the assignments to *utf. */
    method StoreField(utf: int, k: nat, v: Word, ghost m: Mem, ghost image: seq<Word>, ghost done: set<int>)
      requires k < |image| && image[k] == v && Filled(m, mem, utf, image, done)
      modifies this`mem
      ensures Filled(m, mem, utf, image, done + {k})
    {
      ghost var was := mem;
      Put(utf + 4 * k, v);
      FillStep(m, was, mem, utf, image, done, k);
    }

    /** All of them, in the order they are made. */
    method StoreFrame(utf: int, va: Word, err: Word)
      modifies this`mem
      ensures Pushed(old(mem), mem, utf, old(Trapped()), va, err)
      ensures Words(mem, utf) == [va, err, regs.edi, regs.esi, regs.ebp, regs.oesp, regs.ebx, regs.edx, regs.ecx, regs.eax,
                                  eip, eflags, esp]
    {
      ghost var image, m := Image(Trapped(), va, err), mem;
      ImageWords(Trapped(), va, err);
      StoreTop(utf, err, m, image);
      StoreField(utf, 0, va, m, image, Top());
      StoreRegs(utf, m, image, Top() + {0});
      ghost var done := Top() + {0} + LowRegs() + HighRegs();
      assert forall k :: 0 <= k < 13 ==> k in done by { Processor.AllStored(); }
      FilledIsPushed(m, mem, utf, Trapped(), va, err, done);
      FilledWords(m, mem, utf, image, done);
    }

    static ghost function Top(): set<int> { {11} + {10} + {1} + {12} }

    static ghost function LowRegs(): set<int> { {2} + {3} + {4} + {5} }

    static ghost function HighRegs(): set<int> { {6} + {7} + {8} + {9} }

    static lemma AllStored()
      ensures forall k :: 0 <= k < 13 ==> k in Top() + {0} + LowRegs() + HighRegs()
    {
    }

    method StoreTop(utf: int, err: Word, ghost m: Mem, ghost image: seq<Word>)
      requires |image| == 13 && m == mem && image[11] == eflags && image[10] == eip && image[1] == err && image[12] == esp
      modifies this`mem
      ensures Filled(m, mem, utf, image, Top())
    {
      StoreField(utf, 11, eflags, m, image, {});
      assert {} + {11} == {11};
      StoreField(utf, 10, eip, m, image, {11});
      StoreField(utf, 1, err, m, image, {11} + {10});
      StoreField(utf, 12, esp, m, image, {11} + {10} + {1});
    }

    method StoreRegs(utf: int, ghost m: Mem, ghost image: seq<Word>, ghost done: set<int>)
      requires |image| == 13 && Filled(m, mem, utf, image, done)
      requires image[2] == regs.edi && image[3] == regs.esi && image[4] == regs.ebp && image[5] == regs.oesp
      requires image[6] == regs.ebx && image[7] == regs.edx && image[8] == regs.ecx && image[9] == regs.eax
      modifies this`mem
      ensures Filled(m, mem, utf, image, done + LowRegs() + HighRegs())
    {
      StoreLowRegs(utf, m, image, done);
      StoreHighRegs(utf, m, image, done + LowRegs());
    }

    method StoreLowRegs(utf: int, ghost m: Mem, ghost image: seq<Word>, ghost done: set<int>)
      requires |image| == 13 && Filled(m, mem, utf, image, done)
      requires image[2] == regs.edi && image[3] == regs.esi && image[4] == regs.ebp && image[5] == regs.oesp
      modifies this`mem
      ensures Filled(m, mem, utf, image, done + LowRegs())
    {
      StoreField(utf, 2, regs.edi, m, image, done);
      StoreField(utf, 3, regs.esi, m, image, done + {2});
      StoreField(utf, 4, regs.ebp, m, image, done + {2} + {3});
      StoreField(utf, 5, regs.oesp, m, image, done + {2} + {3} + {4});
      assert done + {2} + {3} + {4} + {5} == done + LowRegs();
    }

    method StoreHighRegs(utf: int, ghost m: Mem, ghost image: seq<Word>, ghost done: set<int>)
      requires |image| == 13 && Filled(m, mem, utf, image, done)
      requires image[6] == regs.ebx && image[7] == regs.edx && image[8] == regs.ecx && image[9] == regs.eax
      modifies this`mem
      ensures Filled(m, mem, utf, image, done + HighRegs())
    {
      StoreField(utf, 6, regs.ebx, m, image, done);
      StoreField(utf, 7, regs.edx, m, image, done + {6});
      StoreField(utf, 8, regs.ecx, m, image, done + {6} + {7});
      StoreField(utf, 9, regs.eax, m, image, done + {6} + {7} + {8});
      assert done + {6} + {7} + {8} + {9} == done + HighRegs();
    }

    /** From the handler's return up to the store through eax; flags is what subl leaves. */
    method PlantEip(flags: Word)
      requires esp + SIZE <= 0x1_0000_0000
      modifies this
      ensures Planted(old(View()), View())
    {
      regs := regs.(eax := Load32(mem, esp + 0x30));
      regs, eflags := regs.(eax := Wrap(regs.eax - 4)), flags;
      Put(esp + 0x30, regs.eax);
      regs := regs.(ebx := Load32(mem, esp + 0x28));
    }

    /** popal, from the frame at f. */
    method Popal(ghost f: nat)
      requires esp == f + 8 && f + SIZE <= 0x1_0000_0000
      modifies this`regs, this`esp
      ensures esp == f + 40
      ensures PoppedAll(regs, mem, f, old(regs).oesp)
    {
      regs := PushRegs(Load32(mem, esp), Load32(mem, esp + 4), Load32(mem, esp + 8), regs.oesp,
                       Load32(mem, esp + 16), Load32(mem, esp + 20), Load32(mem, esp + 24), Load32(mem, esp + 28));
      esp := Wrap(esp + 32);
    }

    /** popfl, pop esp and ret, from the frame at f. */
    method PopRest(ghost f: nat)
      requires esp == f + 44 && f + SIZE <= 0x1_0000_0000
      modifies this`eflags, this`esp, this`eip
      ensures eflags == Load32(mem, f + 44) && eip == Load32(mem, Load32(mem, f + 48)) && esp == Wrap(Load32(mem, f + 48) + 4)
    {
      eflags := Load32(mem, esp);
      esp := Load32(mem, esp + 4);
      eip := Load32(mem, esp);
      esp := Wrap(esp + 4);
    }

    method PopFrame(ghost f: nat)
      requires esp == f && f + SIZE <= 0x1_0000_0000
      modifies this`regs, this`eflags, this`esp, this`eip
      ensures PoppedAll(regs, mem, f, old(regs).oesp) && eflags == Load32(mem, f + 44)
      ensures eip == Load32(mem, Load32(mem, f + 48)) && esp == Wrap(Load32(mem, f + 48) + 4)
    {
      esp := esp + 8;
      Popal(f);
      esp := esp + 4;
      PopRest(f);
    }

    /** The store of eip, then off the exception stack. */
    method Return()
      requires esp + SIZE <= 0x1_0000_0000
      modifies this
      ensures Finished(old(View()), View())
    {
      ghost var f, c := esp, View();
      Put(regs.eax, regs.ebx);
      PopFrame(f);
      TailDone(c, View());
    }

    /** The tail run on the frame of a fault at t, as the kernel pushed it, returns to t exactly, unless t ran on the
        exception stack emptied to its top. */
    method UpcallTail(flags: Word, ghost pushed: Mem, ghost t: Trap, ghost va: Word, ghost err: Word, ghost m: Mem)
      requires 4 <= t.esp <= UTOP && Pushed(m, pushed, FrameAddr(t.esp), t, va, err)
      requires esp == FrameAddr(t.esp) && forall x :: esp <= x < esp + SIZE ==> Load8(mem, x) == Load8(pushed, x)
      modifies this
      ensures Restored(Trapped(), t) <==> t.esp != UXSTACKTOP || t.eip == UXSTACKTOP - 4
    {
      ghost var c := View();
      PlantEip(flags);
      ghost var d := View();
      Return();
      RoundTripExactly(m, pushed, t, va, err, c, d, View());
    }
  }

  /** The registers popal leaves, from the frame at f. */
  predicate PoppedAll(regs: PushRegs, m: Mem, f: int, oesp: Word)
  {
    regs == PushRegs(Load32(m, f + 8), Load32(m, f + 12), Load32(m, f + 16), oesp,
                     Load32(m, f + 24), Load32(m, f + 28), Load32(m, f + 32), Load32(m, f + 36))
  }

  lemma TailDone(c: Cpu, d: Cpu)
    requires Wrote(c.mem, d.mem, c.t.regs.eax, c.t.regs.ebx) && PoppedAll(d.t.regs, d.mem, c.t.esp, c.t.regs.oesp)
    requires d.t.eflags == Load32(d.mem, c.t.esp + 44)
    requires d.t.eip == Load32(d.mem, Load32(d.mem, c.t.esp + 48)) && d.t.esp == Wrap(Load32(d.mem, c.t.esp + 48) + 4)
    ensures Finished(c, d)
  {
  }

  lemma SamePage(a: nat, x: nat)
    requires a <= x < a / PGSIZE * PGSIZE + PGSIZE
    ensures PGNUM(x) == PGNUM(a) && (a < ULIM ==> x < ULIM)
  {
    assert ULIM % PGSIZE == 0;
  }
}
