/** User page faults nested to any depth: faults, handler code and upcall tails in any order. */
module FaultNesting {
  import opened Types
  import opened Layout
  import opened UserFault
  import FM = FaultMachine

  /** Program code; C handler code; the tail stopped at its store of eip, which may itself fault. */
  datatype Mode = Program | Handler | AtStore

  /** A frame the kernel pushed and the upcall has not popped: where, and what it interrupted. */
  datatype Live = Live(addr: int, t: Trap, mode: Mode)

  /** Memory and registers, what is running, and the live frames from the outermost in. */
  datatype State = State(cpu: Cpu, mode: Mode, live: seq<Live>)

  datatype Action =
    | Fault(mem: Mem, va: Word, err: Word, upcall: Word) // the kernel has pushed a frame, giving mem, for an upcall
    | Code(cpu: Cpu)                                     // program or handler instructions, giving cpu
    | Plant(cpu: Cpu)                                    // the tail up to its store
    | Finish(cpu: Cpu)                                   // the store and the rest of the tail

  function Last(s: State): Live
    requires s.live != []
  {
    s.live[|s.live| - 1]
  }

  /** The exception stack is in use from here up. */
  function Base(s: State): int { if s.live == [] then UXSTACKTOP else Last(s).addr }

  /** The page below the exception stack is unmapped, so the kernel accepts just the frames that fit in the page. */
  predicate Accepted(esp: Word) { FrameAddr(esp) >= XBASE }

  /** Trap-time stacks the discipline allows: a program's own stack, or the exception stack below the innermost frame. */
  predicate GoodStack(s: State, esp: Word)
  {
    if s.live == [] then esp < XBASE || esp >= UXSTACKTOP + 4 else XBASE <= esp <= Base(s)
  }

  /** Handler code returns with its frame, and all above it, as they were. */
  ghost predicate Keeps(s: State, m: Mem) { forall x :: Base(s) <= x < UXSTACKTOP ==> Load8(m, x) == Load8(s.cpu.mem, x) }

  ghost predicate Enabled(s: State, a: Action)
  {
    match a
    case Fault(mem, va, err, upcall) =>
      && upcall != 0 && GoodStack(s, s.cpu.t.esp) && Accepted(s.cpu.t.esp)
      && Pushed(s.cpu.mem, mem, FrameAddr(s.cpu.t.esp), s.cpu.t, va, err)
    case Code(cpu) => s.mode != AtStore && Keeps(s, cpu.mem)
    case Plant(cpu) => s.mode == Handler && s.live != [] && s.cpu.t.esp == Base(s) && Planted(s.cpu, cpu)
    case Finish(cpu) => s.mode == AtStore && s.live != [] && Finished(s.cpu, cpu)
  }

  ghost function Do(s: State, a: Action): State
  {
    match a
    case Fault(mem, _, _, upcall) =>
      var addr := FrameAddr(s.cpu.t.esp);
      if addr < 0 then s
      else State(Cpu(mem, s.cpu.t.(eip := upcall, esp := addr)), Handler, s.live + [Live(addr, s.cpu.t, s.mode)])
    case Code(cpu) => State(cpu, s.mode, s.live)
    case Plant(cpu) => State(cpu, AtStore, s.live)
    case Finish(cpu) =>
      if s.live == [] then s else State(cpu, Last(s).mode, s.live[..|s.live| - 1])
  }

  /** The mode of the code that frame i serves: what the next frame in interrupted, or what runs now. */
  function ServedBy(s: State, i: nat): Mode
    requires i < |s.live|
  {
    if i + 1 < |s.live| then s.live[i + 1].mode else s.mode
  }

  /** What the tail left in the frame's last word. */
  function SavedEsp(s: State, i: nat): Word
    requires i < |s.live|
  {
    if ServedBy(s, i) == AtStore then Wrap(s.live[i].t.esp - 4) else s.live[i].t.esp
  }

  /** Registers of a tail stopped at its store, serving frame f. */
  predicate Stopped(f: Live, t: Trap)
  {
    t.esp == f.addr && t.regs.eax == Wrap(f.t.esp - 4) && t.regs.ebx == f.t.eip
  }

  /** Frame i lies in the exception-stack page, just below the stack of what it interrupted. */
  predicate Placed(live: seq<Live>, i: nat)
    requires i < |live|
  {
    var f := live[i];
    && XBASE <= f.addr && f.addr == FrameAddr(f.t.esp)
    && (i == 0 ==> f.mode == Program && (f.t.esp < XBASE || f.t.esp >= UXSTACKTOP + 4))
    && (i > 0 ==> f.mode != Program && XBASE <= f.t.esp <= live[i - 1].addr
                  && (f.mode == AtStore ==> Stopped(live[i - 1], f.t)))
  }

  ghost predicate FrameOk(s: State, i: nat)
    requires i < |s.live|
  {
    Placed(s.live, i) && Holds(s.cpu.mem, s.live[i].addr, s.live[i].t, SavedEsp(s, i))
  }

  ghost predicate Inv(s: State)
  {
    && (s.mode == Program <==> s.live == [])
    && (s.mode == AtStore ==> Stopped(Last(s), s.cpu.t))
    && forall i :: 0 <= i < |s.live| ==> FrameOk(s, i)
  }

  lemma {:induction false} FramesDescend(s: State, i: nat, j: nat)
    requires Inv(s) && i < j < |s.live|
    ensures s.live[j].addr + SIZE + 4 <= s.live[i].addr
    decreases j - i
  {
    assert FrameOk(s, j) && FrameOk(s, j - 1);
    if i < j - 1 { FramesDescend(s, i, j - 1); }
  }

  /** A frame whose bytes and neighbours stay is still good. */
  lemma FrameStays(s: State, t: State, i: nat)
    requires i < |s.live| && i < |t.live| && FrameOk(s, i)
    requires t.live[i] == s.live[i] && (i > 0 ==> t.live[i - 1] == s.live[i - 1]) && SavedEsp(t, i) == SavedEsp(s, i)
    requires forall x :: s.live[i].addr <= x < s.live[i].addr + SIZE ==> Load8(t.cpu.mem, x) == Load8(s.cpu.mem, x)
    ensures FrameOk(t, i)
  {
    HoldsAcross(s.cpu.mem, t.cpu.mem, s.live[i].addr, s.live[i].t, SavedEsp(s, i));
  }

  /** Every live frame lies in [Base, UXSTACKTOP). */
  lemma AboveBase(s: State, i: nat)
    requires Inv(s) && i < |s.live|
    ensures Base(s) <= s.live[i].addr && s.live[i].addr + SIZE <= UXSTACKTOP
  {
    assert FrameOk(s, i);
    if i < |s.live| - 1 { FramesDescend(s, i, |s.live| - 1); }
  }

  lemma FaultFrame(s: State, a: Action)
    requires Inv(s) && Enabled(s, a) && a.Fault?
    ensures |Do(s, a).live| == |s.live| + 1 && FrameOk(Do(s, a), |s.live|)
  {
  }

  lemma FaultKeeps(s: State, a: Action)
    requires Inv(s) && Enabled(s, a) && a.Fault?
    ensures Inv(Do(s, a))
  {
    var t := Do(s, a);
    FaultFrame(s, a);
    forall i | 0 <= i < |t.live| ensures FrameOk(t, i) {
      if i < |s.live| {
        AboveBase(s, i);
        FrameStays(s, t, i);
      }
    }
  }

  lemma CodeKeeps(s: State, a: Action)
    requires Inv(s) && Enabled(s, a) && a.Code?
    ensures Inv(Do(s, a))
  {
    var t := Do(s, a);
    forall i | 0 <= i < |t.live| ensures FrameOk(t, i) {
      AboveBase(s, i);
      FrameStays(s, t, i);
    }
  }

  lemma PlantFrame(c: Cpu, d: Cpu, f: Live)
    requires Planted(c, d) && c.t.esp == f.addr && Holds(c.mem, f.addr, f.t, f.t.esp)
    ensures Holds(d.mem, f.addr, f.t, Wrap(f.t.esp - 4)) && Stopped(f, d.t)
  {
    PlantOk(c, d, f.t);
  }

  lemma PlantOuter(s: State, d: Cpu, i: nat)
    requires Inv(s) && s.mode == Handler && Planted(s.cpu, d) && i + 1 < |s.live| && s.cpu.t.esp == Last(s).addr
    ensures FrameOk(State(d, AtStore, s.live), i)
  {
    FramesDescend(s, i, |s.live| - 1);
    FrameStays(s, State(d, AtStore, s.live), i);
  }

  lemma PlantInner(s: State, d: Cpu)
    requires s.live != [] && FrameOk(s, |s.live| - 1)
    requires s.mode == Handler && Planted(s.cpu, d) && s.cpu.t.esp == Last(s).addr
    ensures FrameOk(State(d, AtStore, s.live), |s.live| - 1) && Stopped(Last(s), d.t)
  {
    PlantFrame(s.cpu, d, Last(s));
  }

  lemma PlantKeeps(s: State, a: Action)
    requires Inv(s) && Enabled(s, a) && a.Plant?
    ensures Inv(Do(s, a))
  {
    assert FrameOk(s, |s.live| - 1);
    PlantInner(s, a.cpu);
    forall i | 0 <= i < |s.live| ensures FrameOk(State(a.cpu, AtStore, s.live), i) {
      if i + 1 < |s.live| { PlantOuter(s, a.cpu, i); }
    }
  }

  lemma FinishFrameAt(c: Cpu, d: Cpu, f: Live)
    requires Finished(c, d) && Stopped(f, c.t) && Holds(c.mem, f.addr, f.t, Wrap(f.t.esp - 4)) && Clear(f.t.esp, f.addr)
    ensures Restored(d.t, f.t)
    ensures SameOutside(c.mem, d.mem, Wrap(f.t.esp - 4), Wrap(f.t.esp - 4) + 4)
  {
    FinishOk(c, d, f.t);
  }

  lemma PlacedIsClear(live: seq<Live>, i: nat)
    requires i < |live| && Placed(live, i) && (i > 0 ==> live[i - 1].addr < UXSTACKTOP)
    ensures Clear(live[i].t.esp, live[i].addr)
  {
    FrameIsClear(live[i].t.esp);
  }

  /** Popping the innermost frame restores, exactly, what it interrupted. */
  lemma FinishRestores(s: State, a: Action)
    requires Inv(s) && Enabled(s, a) && a.Finish?
    ensures Restored(a.cpu.t, Last(s).t)
    ensures SameOutside(s.cpu.mem, a.cpu.mem, Wrap(Last(s).t.esp - 4), Wrap(Last(s).t.esp - 4) + 4)
  {
    var n := |s.live| - 1;
    assert FrameOk(s, n);
    if n > 0 { AboveBase(s, n - 1); }
    PlacedIsClear(s.live, n);
    FinishFrameAt(s.cpu, a.cpu, Last(s));
  }

  /** The planted word is in no outer frame. */
  lemma PlantedOutside(s: State, i: nat)
    requires Inv(s) && i + 1 < |s.live|
    ensures var w := Wrap(Last(s).t.esp - 4); w + 4 <= s.live[i].addr
  {
    var n := |s.live| - 1;
    assert FrameOk(s, n);
    AboveBase(s, n - 1);
    if i < n - 1 { FramesDescend(s, i, n - 1); }
  }

  lemma FinishOuter(s: State, a: Action, i: nat)
    requires Inv(s) && Enabled(s, a) && a.Finish? && i + 1 < |s.live|
    ensures FrameOk(Do(s, a), i)
  {
    FinishRestores(s, a);
    PlantedOutside(s, i);
    AboveBase(s, i);
    FrameStays(s, Do(s, a), i);
  }

  lemma FinishKeeps(s: State, a: Action)
    requires Inv(s) && Enabled(s, a) && a.Finish?
    ensures Inv(Do(s, a))
  {
    var t, n := Do(s, a), |s.live| - 1;
    assert FrameOk(s, n);
    FinishRestores(s, a);
    forall i | 0 <= i < n ensures FrameOk(t, i) { FinishOuter(s, a, i); }
  }

  lemma Keep(s: State, a: Action)
    requires Inv(s) && Enabled(s, a)
    ensures Inv(Do(s, a))
  {
    match a {
      case Fault(_, _, _, _) => FaultKeeps(s, a);
      case Code(_) => CodeKeeps(s, a);
      case Plant(_) => PlantKeeps(s, a);
      case Finish(_) => FinishKeeps(s, a);
    }
  }

  // ---------- whole runs ----------

  ghost predicate Legal(s: State, acts: seq<Action>)
    decreases |acts|
  {
    acts == [] || (Enabled(s, acts[0]) && Legal(Do(s, acts[0]), acts[1..]))
  }

  ghost function Exec(s: State, acts: seq<Action>): State
    decreases |acts|
  {
    if acts == [] then s else Exec(Do(s, acts[0]), acts[1..])
  }

  /** No action of the run pops a frame below depth n. */
  ghost predicate StaysAbove(s: State, acts: seq<Action>, n: nat)
    decreases |acts|
  {
    |s.live| >= n && (acts == [] || StaysAbove(Do(s, acts[0]), acts[1..], n))
  }

  lemma {:induction false} OuterFramesStay(s: State, acts: seq<Action>, n: nat)
    requires Inv(s) && Legal(s, acts) && StaysAbove(s, acts, n)
    ensures Inv(Exec(s, acts)) && |Exec(s, acts).live| >= n && Exec(s, acts).live[..n] == s.live[..n]
    decreases |acts|
  {
    if acts != [] {
      Keep(s, acts[0]);
      OuterFramesStay(Do(s, acts[0]), acts[1..], n);
    }
  }

  /** Nested round trip: whatever happens between a fault and the return that pops its frame -- handlers, more faults
      on the exception stack, faults in the tail's own store -- the return restores the registers, eip, eflags and esp
      of the fault, goes back to the code it interrupted, and leaves every outer frame live as it was. */
  lemma NestedRoundTrip(s: State, fault: Action, acts: seq<Action>, ret: Action)
    requires Inv(s) && fault.Fault? && Enabled(s, fault)
    requires Legal(Do(s, fault), acts) && StaysAbove(Do(s, fault), acts, |s.live| + 1)
    requires ret.Finish? && Enabled(Exec(Do(s, fault), acts), ret) && |Exec(Do(s, fault), acts).live| == |s.live| + 1
    ensures var r := Do(Exec(Do(s, fault), acts), ret);
      Restored(r.cpu.t, s.cpu.t) && r.mode == s.mode && r.live == s.live && Inv(r)
  {
    Keep(s, fault);
    var s1 := Do(s, fault);
    OuterFramesStay(s1, acts, |s.live| + 1);
    var t := Exec(s1, acts);
    assert t.live == t.live[..|s.live| + 1] == s1.live[..|s.live| + 1] == s1.live;
    FinishRestores(t, ret);
    Keep(t, ret);
  }

  /** Each tail changes memory outside the exception stack only in the word below the trap-time esp. */
  lemma TailWritesBelowEsp(s: State, a: Action, x: int)
    requires Inv(s) && Enabled(s, a) && (a.Plant? || a.Finish?)
    requires x < XBASE || x >= UXSTACKTOP
    requires !(a.Finish? && InWord(x, Wrap(Last(s).t.esp - 4)))
    ensures Load8(a.cpu.mem, x) == Load8(s.cpu.mem, x)
  {
    assert FrameOk(s, |s.live| - 1);
    if a.Finish? { FinishRestores(s, a); }
  }

  /** Live frames are disjoint, all in the exception-stack page, each nested one a scratch word below the stack it
      interrupted, and there are never more than 73. */
  lemma ExceptionStackDiscipline(s: State)
    requires Inv(s)
    ensures forall i, j :: 0 <= i < j < |s.live| ==> s.live[j].addr + SIZE + 4 <= s.live[i].addr
    ensures forall i :: 0 <= i < |s.live| ==> XBASE <= s.live[i].addr && s.live[i].addr + SIZE <= UXSTACKTOP
    ensures forall i :: 0 < i < |s.live| ==> s.live[i].addr + SIZE + 4 == s.live[i].t.esp <= s.live[i - 1].addr
    ensures |s.live| <= 73
  {
    forall i, j | 0 <= i < j < |s.live| ensures s.live[j].addr + SIZE + 4 <= s.live[i].addr { FramesDescend(s, i, j); }
    forall i | 0 <= i < |s.live| ensures XBASE <= s.live[i].addr && s.live[i].addr + SIZE <= UXSTACKTOP { assert FrameOk(s, i); }
    forall i | 0 < i < |s.live| ensures s.live[i].addr + SIZE + 4 == s.live[i].t.esp <= s.live[i - 1].addr { assert FrameOk(s, i); }
    if s.live != [] { FrameDepth(s, |s.live| - 1); }
  }

  lemma {:induction false} FrameDepth(s: State, i: nat)
    requires Inv(s) && i < |s.live|
    ensures s.live[i].addr <= UXSTACKTOP - SIZE - (SIZE + 4) * i
    decreases i
  {
    assert FrameOk(s, i);
    if i > 0 { FrameDepth(s, i - 1); }
  }

  /** The guard is page_fault_handler's own test, if the exception-stack page is writable and the one below it is not. */
  lemma AcceptedExactly(writable: set<int>, esp: Word)
    requires PGNUM(XBASE) in writable && PGNUM(XBASE) - 1 !in writable
    ensures Accepted(esp) <==> FM.FrameWritable(writable, FrameAddr(esp))
  {
    var a := FrameAddr(esp);
    if Accepted(esp) {
      assert forall x :: a <= x < a + SIZE ==> PGNUM(x) == PGNUM(XBASE);
    } else {
      assert PGNUM(a) == PGNUM(XBASE) - 1;
      assert !FM.UserWritable(writable, a);
    }
  }

  /** Handler code that faults while on some stack other than the exception stack has its outermost frame overwritten: the
      kernel starts from the top again. The frame still serves only if the two interrupted states look alike. */
  lemma OffStackFault(s: State, mem: Mem, va: Word, err: Word)
    requires Inv(s) && s.live != [] && (s.cpu.t.esp < XBASE || s.cpu.t.esp >= UXSTACKTOP)
    requires Pushed(s.cpu.mem, mem, FrameAddr(s.cpu.t.esp), s.cpu.t, va, err)
    ensures FrameAddr(s.cpu.t.esp) == s.live[0].addr
    ensures Holds(mem, s.live[0].addr, s.live[0].t, s.live[0].t.esp) <==>
            forall k :: 2 <= k <= 12 && k != 5 ==> Field(s.cpu.t, s.cpu.t.esp, k) == Field(s.live[0].t, s.live[0].t.esp, k)
  {
    assert FrameOk(s, 0);
    var a := s.live[0].addr;
    forall k | 2 <= k <= 12 && k != 5 ensures Load32(mem, a + 4 * k) == Field(s.cpu.t, s.cpu.t.esp, k) {}
  }

  /** Every frame as high as can be, and the stack at the innermost one. */
  ghost predicate Tight(s: State)
  {
    && Inv(s) && s.live != [] && s.live[0].addr == UXSTACKTOP - SIZE && s.cpu.t.esp == Base(s)
    && forall i :: 0 < i < |s.live| ==> s.live[i].t.esp == s.live[i - 1].addr
  }

  /** Faults taken as fast as possible, at the first instruction of the upcall: the seventy-third still fits, and the
      seventy-fourth is refused. */
  lemma BoundIsTight(s: State)
    requires Tight(s)
    ensures Accepted(s.cpu.t.esp) <==> |s.live| < 73
  {
    ExactDepth(s, |s.live| - 1);
    assert FrameOk(s, |s.live| - 1);
  }

  lemma TightFault(s: State, a: Action)
    requires Tight(s) && a.Fault? && Enabled(s, a)
    ensures Tight(Do(s, a)) && |Do(s, a).live| == |s.live| + 1
  {
    FaultKeeps(s, a);
    var t := Do(s, a);
    assert s.live[|s.live| - 1].addr == Base(s);
    assert forall i :: 0 <= i < |s.live| ==> t.live[i] == s.live[i];
  }

  /** Below 73 frames the next fault is possible. */
  lemma NextTight(s: State, upcall: Word) returns (a: Action)
    requires Tight(s) && |s.live| < 73 && upcall != 0
    ensures Enabled(s, a) && a.Fault? && Tight(Do(s, a)) && |Do(s, a).live| == |s.live| + 1
  {
    BoundIsTight(s);
    var mem := FM.PushExists(s.cpu.mem, FrameAddr(s.cpu.t.esp), s.cpu.t, 0, 0);
    a := Fault(mem, 0, 0, upcall);
    assert FrameOk(s, |s.live| - 1);
    TightFault(s, a);
  }

  lemma FirstTight(s: State, upcall: Word) returns (a: Action)
    requires Inv(s) && s.live == [] && s.cpu.t.esp < XBASE && upcall != 0
    ensures Enabled(s, a) && a.Fault? && Tight(Do(s, a)) && |Do(s, a).live| == 1
  {
    var mem := FM.PushExists(s.cpu.mem, FrameAddr(s.cpu.t.esp), s.cpu.t, 0, 0);
    a := Fault(mem, 0, 0, upcall);
    FaultKeeps(s, a);
  }

  /** The bound is met: from any program on its own stack there is a run to n live frames, for each n up to 73. */
  lemma {:induction false} BoundIsReached(s: State, upcall: Word, n: nat) returns (acts: seq<Action>)
    requires Inv(s) && s.live == [] && s.cpu.t.esp < XBASE && upcall != 0 && 1 <= n <= 73
    ensures Legal(s, acts) && Tight(Exec(s, acts)) && |Exec(s, acts).live| == n
    decreases n
  {
    if n == 1 {
      var a := FirstTight(s, upcall);
      acts := [a];
      OneMore(s, [], a);
    } else {
      acts := BoundIsReached(s, upcall, n - 1);
      var a := NextTight(Exec(s, acts), upcall);
      OneMore(s, acts, a);
      acts := acts + [a];
    }
  }

  lemma {:induction false} OneMore(s: State, acts: seq<Action>, a: Action)
    requires Legal(s, acts) && Enabled(Exec(s, acts), a)
    ensures Legal(s, acts + [a]) && Exec(s, acts + [a]) == Do(Exec(s, acts), a)
    decreases |acts|
  {
    if acts == [] {
      assert acts + [a] == [a] && [a][1..] == [];
    } else {
      OneMore(Do(s, acts[0]), acts[1..], a);
      assert (acts + [a])[0] == acts[0] && (acts + [a])[1..] == acts[1..] + [a];
    }
  }

  lemma {:induction false} ExactDepth(s: State, i: nat)
    requires Inv(s) && i < |s.live| && s.live[0].addr == UXSTACKTOP - SIZE
    requires forall j :: 0 < j < |s.live| ==> s.live[j].t.esp == s.live[j - 1].addr
    ensures s.live[i].addr == UXSTACKTOP - SIZE - (SIZE + 4) * i
    decreases i
  {
    assert FrameOk(s, i);
    if i > 0 { ExactDepth(s, i - 1); }
  }
}
