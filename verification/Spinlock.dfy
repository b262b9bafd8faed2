/** The spinlock of kern/spinlock.c, with its debug fields, under any number of CPUs that each take one memory access at
    a time, and what it gives the kernel: system calls that do not interleave. */
module Spinlock {
  import opened Types

  /** struct spinlock: cpu is None for the null pointer. */
  datatype Lock = Lock(locked: bool, cpu: Option<nat>, pcs: seq<int>)

  const NPCS: nat := 10

  /** Program counters, one memory access each: spin_lock's check of holding, xchg, the write of cpu, the writes of pcs;
      kernel code; spin_unlock's check, the writes of pcs[0] and cpu, xchg. */
  datatype Pc =
    | Outside
    | LockReadLocked | LockReadCpu | LockXchg | SetCpu | SetPcs(i: nat)
    | Critical
    | UnlockReadLocked | UnlockReadCpu | ClearPcs | ClearCpu | UnlockXchg
    | Panic

  /** A CPU, with its call chain as get_caller_pcs finds it, and the accesses of its current kernel entry. */
  datatype Cpu = Cpu(pc: Pc, chain: seq<int>, doing: seq<int>)

  /** A kernel access by a CPU. */
  datatype Event = Event(cpu: nat, op: int)

  /** A whole kernel entry. */
  datatype Call = Call(cpu: nat, ops: seq<int>)

  /** The lock, the CPUs, every kernel access so far, and the kernel entries that have ended. */
  datatype State = State(lock: Lock, cpus: seq<Cpu>, trace: seq<Event>, calls: seq<Call>)

  datatype Action =
    | Enter(c: nat, chain: seq<int>)   // call spin_lock, from a stack with this chain
    | Access(c: nat, op: int)          // kernel code
    | Leave(c: nat)                    // call spin_unlock
    | Go(c: nat)                       // the next access of spin_lock or spin_unlock

  predicate Enabled(s: State, a: Action)
  {
    && a.c < |s.cpus|
    && match a
       case Enter(c, chain) => s.cpus[c].pc == Outside && |chain| == NPCS
       case Access(c, _) => s.cpus[c].pc == Critical
       case Leave(c) => s.cpus[c].pc == Critical
       case Go(c) => s.cpus[c].pc !in {Outside, Critical, Panic}
  }

  function Move(s: State, c: nat, pc: Pc): seq<Cpu>
    requires c < |s.cpus|
  {
    s.cpus[c := s.cpus[c].(pc := pc)]
  }

  /** The next access of CPU c inside spin_lock or spin_unlock. */
  function Advance(s: State, c: nat): State
    requires c < |s.cpus|
  {
    var lk, me := s.lock, s.cpus[c];
    match me.pc
    case LockReadLocked => s.(cpus := Move(s, c, if lk.locked then LockReadCpu else LockXchg))
    case LockReadCpu => s.(cpus := Move(s, c, if lk.cpu == Some(c) then Panic else LockXchg))
    case LockXchg =>
      s.(lock := lk.(locked := true), cpus := Move(s, c, if lk.locked then LockXchg else SetCpu))
    case SetCpu => s.(lock := lk.(cpu := Some(c)), cpus := Move(s, c, SetPcs(0)))
    case SetPcs(i) =>
      if i < |lk.pcs| && i < |me.chain| then
        s.(lock := lk.(pcs := lk.pcs[i := me.chain[i]]),
           cpus := Move(s, c, if i + 1 < NPCS then SetPcs(i + 1) else Critical))
      else s
    case UnlockReadLocked => s.(cpus := Move(s, c, if lk.locked then UnlockReadCpu else Panic))
    case UnlockReadCpu => s.(cpus := Move(s, c, if lk.cpu == Some(c) then ClearPcs else Panic))
    case ClearPcs => s.(lock := lk.(pcs := if lk.pcs == [] then [] else lk.pcs[0 := 0]), cpus := Move(s, c, ClearCpu))
    case ClearCpu => s.(lock := lk.(cpu := None), cpus := Move(s, c, UnlockXchg))
    case UnlockXchg =>
      s.(lock := lk.(locked := false), cpus := s.cpus[c := me.(pc := Outside, doing := [])],
         calls := s.calls + [Call(c, me.doing)])
    case _ => s
  }

  function Do(s: State, a: Action): State
    requires a.c < |s.cpus|
  {
    match a
    case Enter(c, chain) => s.(cpus := s.cpus[c := Cpu(LockReadLocked, chain, [])])
    case Access(c, op) =>
      s.(cpus := s.cpus[c := s.cpus[c].(doing := s.cpus[c].doing + [op])], trace := s.trace + [Event(c, op)])
    case Leave(c) => s.(cpus := Move(s, c, UnlockReadLocked))
    case Go(c) => Advance(s, c)
  }

  // ---------- the invariant ----------

  /** Between the two exchanges. */
  predicate Owns(pc: Pc)
  {
    pc in {SetCpu, Critical, UnlockReadLocked, UnlockReadCpu, ClearPcs, ClearCpu, UnlockXchg} || pc.SetPcs?
  }

  /** Between the writes of cpu. */
  predicate Named(pc: Pc) { Owns(pc) && pc != SetCpu && pc != UnlockXchg }

  predicate CpuOk(lk: Lock, me: Cpu, c: nat)
  {
    && |lk.pcs| == NPCS && me.pc != Panic
    && (Owns(me.pc) ==> lk.locked) && (me.pc != Outside ==> |me.chain| == NPCS)
    && (!Owns(me.pc) ==> me.doing == [])
    && (me.pc.SetCpu? || me.pc.SetPcs? ==> me.doing == [])
    && (Named(me.pc) <==> lk.cpu == Some(c))
    && (me.pc.SetPcs? ==> me.pc.i < NPCS && lk.pcs[..me.pc.i] == me.chain[..me.pc.i])
    && (me.pc in {Critical, UnlockReadLocked, UnlockReadCpu, ClearPcs} ==> lk.pcs == me.chain)
  }

  function Events(call: Call): seq<Event> { seq(|call.ops|, i requires 0 <= i < |call.ops| => Event(call.cpu, call.ops[i])) }

  /** The accesses of whole entries, one entry after the other. */
  function Serial(calls: seq<Call>): seq<Event>
  {
    if calls == [] then [] else Serial(calls[..|calls| - 1]) + Events(calls[|calls| - 1])
  }

  /** c is between its exchanges, and only it has been in the kernel since the last entry ended. */
  predicate Owner(s: State, c: nat)
  {
    && c < |s.cpus| && Owns(s.cpus[c].pc)
    && s.trace == Serial(s.calls) + Events(Call(c, s.cpus[c].doing))
  }

  ghost predicate Inv(s: State)
  {
    && |s.lock.pcs| == NPCS
    && (forall c :: 0 <= c < |s.cpus| ==> CpuOk(s.lock, s.cpus[c], c))
    && (s.lock.cpu.Some? ==> s.lock.cpu.value < |s.cpus|)
    && (forall c, d :: 0 <= c < |s.cpus| && 0 <= d < |s.cpus| && Owns(s.cpus[c].pc) && Owns(s.cpus[d].pc) ==> c == d)
    && (if s.lock.locked then exists c :: Owner(s, c) else s.trace == Serial(s.calls))
  }

  /** Every access but the two exchanges. */
  lemma AdvanceKeeps(s: State, c: nat)
    requires Inv(s) && Enabled(s, Go(c)) && !s.cpus[c].pc.LockXchg? && !s.cpus[c].pc.UnlockXchg?
    ensures Inv(Advance(s, c))
  {
    var t := Advance(s, c);
    assert CpuOk(s.lock, s.cpus[c], c);
    assert Owns(t.cpus[c].pc) == Owns(s.cpus[c].pc) && t.cpus[c].doing == s.cpus[c].doing;
    forall d | 0 <= d < |t.cpus| ensures CpuOk(t.lock, t.cpus[d], d) { AdvanceCpu(s, c, d); }
    if s.lock.locked {
      var o: nat :| Owner(s, o);
      assert Owner(t, o);
    }
  }

  lemma AdvanceCpu(s: State, c: nat, d: nat)
    requires Inv(s) && Enabled(s, Go(c)) && !s.cpus[c].pc.LockXchg? && !s.cpus[c].pc.UnlockXchg? && d < |s.cpus|
    ensures CpuOk(Advance(s, c).lock, Advance(s, c).cpus[d], d)
  {
    assert CpuOk(s.lock, s.cpus[c], c) && CpuOk(s.lock, s.cpus[d], d);
  }

  lemma AcquireKeeps(s: State, c: nat)
    requires Inv(s) && Enabled(s, Go(c)) && s.cpus[c].pc.LockXchg?
    ensures Inv(Advance(s, c))
  {
    var t := Advance(s, c);
    assert CpuOk(s.lock, s.cpus[c], c);
    if s.lock.locked {
      var o: nat :| Owner(s, o);
      assert Owner(t, o);
    } else {
      assert Events(Call(c, [])) == [];
      assert Owner(t, c);
    }
  }

  lemma ReleaseKeeps(s: State, c: nat)
    requires Inv(s) && Enabled(s, Go(c)) && s.cpus[c].pc.UnlockXchg?
    ensures Inv(Advance(s, c))
  {
    var t := Advance(s, c);
    assert CpuOk(s.lock, s.cpus[c], c);
    var o: nat :| Owner(s, o);
    assert o == c;
    assert t.calls[..|t.calls| - 1] == s.calls;
    forall d | 0 <= d < |t.cpus| ensures CpuOk(t.lock, t.cpus[d], d) {
      assert CpuOk(s.lock, s.cpus[d], d);
      if d != c { assert !Owns(s.cpus[d].pc); }
    }
  }

  lemma CallKeeps(s: State, a: Action)
    requires Inv(s) && Enabled(s, a) && !a.Go?
    ensures Inv(Do(s, a))
  {
    var t := Do(s, a);
    assert CpuOk(s.lock, s.cpus[a.c], a.c);
    if s.lock.locked {
      var o: nat :| Owner(s, o);
      if a.Access? {
        assert o == a.c;
        assert Events(Call(o, t.cpus[o].doing)) == Events(Call(o, s.cpus[o].doing)) + [Event(o, a.op)];
      }
      assert Owner(t, o);
    }
  }

  // ---------- whole runs ----------

  predicate Legal(s: State, acts: seq<Action>)
    decreases |acts|
  {
    acts == [] || (Enabled(s, acts[0]) && Legal(Do(s, acts[0]), acts[1..]))
  }

  function Exec(s: State, acts: seq<Action>): State
    requires Legal(s, acts)
    decreases |acts|
  {
    if acts == [] then s else Exec(Do(s, acts[0]), acts[1..])
  }

  /** After spin_initlock. */
  ghost predicate Init(s: State)
  {
    && !s.lock.locked && s.lock.cpu == None && |s.lock.pcs| == NPCS && s.trace == [] && s.calls == []
    && forall c :: 0 <= c < |s.cpus| ==> s.cpus[c].pc == Outside && s.cpus[c].doing == []
  }

  lemma {:induction false} InvAlong(s: State, acts: seq<Action>)
    requires Inv(s) && Legal(s, acts)
    ensures Inv(Exec(s, acts)) && |Exec(s, acts).cpus| == |s.cpus|
    decreases |acts|
  {
    if acts != [] {
      var a := acts[0];
      if !a.Go? { CallKeeps(s, a); }
      else if s.cpus[a.c].pc.LockXchg? { AcquireKeeps(s, a.c); }
      else if s.cpus[a.c].pc.UnlockXchg? { ReleaseKeeps(s, a.c); }
      else { AdvanceKeeps(s, a.c); }
      InvAlong(Do(s, a), acts[1..]);
    }
  }

  /** What holding returns if its two loads happen now. */
  predicate Holding(s: State, c: nat) { s.lock.locked && s.lock.cpu == Some(c) }

  /** In every run: at most one CPU is in the kernel; the call of holding is false, whenever its loads happen, for a CPU
      outside and true for the CPU in the kernel; and no check panics. */
  lemma MutualExclusion(s: State, acts: seq<Action>)
    requires Init(s) && Legal(s, acts)
    ensures var t := Exec(s, acts);
      && (forall c, d :: 0 <= c < |t.cpus| && 0 <= d < |t.cpus| && t.cpus[c].pc == Critical && t.cpus[d].pc == Critical
            ==> c == d)
      && (forall c :: 0 <= c < |t.cpus| ==> t.cpus[c].pc != Panic)
      && (forall c :: 0 <= c < |t.cpus| && !Owns(t.cpus[c].pc) ==> t.lock.cpu != Some(c) && !Holding(t, c))
      && (forall c :: 0 <= c < |t.cpus| && t.cpus[c].pc == Critical ==> Holding(t, c) && t.lock.pcs == t.cpus[c].chain)
  {
    assert Serial([]) == [];
    InvAlong(s, acts);
    var t := Exec(s, acts);
    assert forall c :: 0 <= c < |t.cpus| ==> CpuOk(t.lock, t.cpus[c], c);
  }

  /** Kernel entries are atomic: whatever the interleaving, the accesses to kernel data are those of the finished
      entries, one whole entry after the other, followed by those of the one CPU, if any, now inside. */
  lemma EntriesAreAtomic(s: State, acts: seq<Action>)
    requires Init(s) && Legal(s, acts)
    ensures var t := Exec(s, acts);
      if t.lock.locked then exists c :: Owner(t, c) && forall d :: 0 <= d < |t.cpus| && t.cpus[d].doing != [] ==> d == c
      else t.trace == Serial(t.calls)
  {
    assert Serial([]) == [];
    InvAlong(s, acts);
    var t := Exec(s, acts);
    if t.lock.locked {
      var c: nat :| Owner(t, c);
      forall d | 0 <= d < |t.cpus| && t.cpus[d].doing != [] ensures d == c { assert CpuOk(t.lock, t.cpus[d], d); }
    }
  }

  // ---------- the lock can be taken and given back ----------

  ghost predicate Reach(s: State, t: State) { exists acts :: Legal(s, acts) && Exec(s, acts) == t }

  lemma ReachStep(s: State, a: Action)
    requires Enabled(s, a)
    ensures Reach(s, Do(s, a))
  {
    assert [a][1..] == [];
    assert Legal(Do(s, a), []) && Exec(Do(s, a), []) == Do(s, a);
    assert Legal(s, [a]) && Exec(s, [a]) == Do(s, a);
  }

  lemma {:induction false} Append(s: State, first: seq<Action>, second: seq<Action>)
    requires Legal(s, first) && Legal(Exec(s, first), second)
    ensures Legal(s, first + second) && Exec(s, first + second) == Exec(Exec(s, first), second)
    decreases |first|
  {
    if first == [] {
      assert first + second == second;
    } else {
      assert (first + second)[1..] == first[1..] + second;
      Append(Do(s, first[0]), first[1..], second);
    }
  }

  lemma ReachTrans(s: State, t: State, u: State)
    requires Reach(s, t) && Reach(t, u)
    ensures Reach(s, u)
  {
    var first :| Legal(s, first) && Exec(s, first) == t;
    var second :| Legal(t, second) && Exec(t, second) == u;
    Append(s, first, second);
  }

  lemma ReachOneMore(s: State, t: State, a: Action)
    requires Reach(s, t) && Enabled(t, a)
    ensures Reach(s, Do(t, a))
  {
    ReachStep(t, a);
    ReachTrans(s, t, Do(t, a));
  }

  /** s but for CPU c and the lock. */
  function With(s: State, c: nat, me: Cpu, lock: Lock): State
    requires c < |s.cpus|
  {
    s.(cpus := s.cpus[c := me], lock := lock)
  }

  /** With the lock free, spin_lock goes from its check to the debug fields. */
  lemma Acquires(s: State, c: nat, chain: seq<int>)
    requires c < |s.cpus| && s.cpus[c].pc == Outside && |chain| == NPCS && !s.lock.locked && |s.lock.pcs| == NPCS
    ensures Reach(s, With(s, c, Cpu(SetPcs(0), chain, []), Lock(true, Some(c), s.lock.pcs)))
  {
    var s1 := Do(s, Enter(c, chain));
    ReachStep(s, Enter(c, chain));
    var s2 := Do(s1, Go(c));
    ReachOneMore(s, s1, Go(c));
    var s3 := Do(s2, Go(c));
    ReachOneMore(s, s2, Go(c));
    ReachOneMore(s, s3, Go(c));
    assert Do(s3, Go(c)) == With(s, c, Cpu(SetPcs(0), chain, []), Lock(true, Some(c), s.lock.pcs));
  }

  /** Then it records the call chain. */
  lemma {:induction false} Records(s: State, c: nat, i: nat)
    requires c < |s.cpus| && s.cpus[c].pc == SetPcs(i) && i < NPCS && |s.cpus[c].chain| == NPCS == |s.lock.pcs|
    requires s.lock.pcs[..i] == s.cpus[c].chain[..i]
    ensures Reach(s, With(s, c, s.cpus[c].(pc := Critical), s.lock.(pcs := s.cpus[c].chain)))
    decreases NPCS - i
  {
    var t := Do(s, Go(c));
    var chain := s.cpus[c].chain;
    ReachStep(s, Go(c));
    assert t.lock.pcs[..i + 1] == chain[..i + 1];
    if i + 1 < NPCS {
      Records(t, c, i + 1);
      var u := With(t, c, t.cpus[c].(pc := Critical), t.lock.(pcs := chain));
      assert u == With(s, c, s.cpus[c].(pc := Critical), s.lock.(pcs := chain));
      ReachTrans(s, t, u);
    } else {
      assert t.lock.pcs == chain;
      assert t == With(s, c, s.cpus[c].(pc := Critical), s.lock.(pcs := chain));
    }
  }

  /** Kernel code. */
  lemma {:induction false} Works(s: State, c: nat, ops: seq<int>)
    requires c < |s.cpus| && s.cpus[c].pc == Critical
    ensures Reach(s, s.(cpus := s.cpus[c := s.cpus[c].(doing := s.cpus[c].doing + ops)], trace := s.trace + Events(Call(c, ops))))
    decreases |ops|
  {
    if ops == [] {
      assert Legal(s, []) && Exec(s, []) == s;
      assert s.cpus[c].doing + ops == s.cpus[c].doing && s.trace + Events(Call(c, ops)) == s.trace;
      assert s.cpus[c := s.cpus[c]] == s.cpus;
    } else {
      var t := Do(s, Access(c, ops[0]));
      ReachStep(s, Access(c, ops[0]));
      Works(t, c, ops[1..]);
      assert Events(Call(c, ops)) == [Event(c, ops[0])] + Events(Call(c, ops[1..]));
      assert s.trace + Events(Call(c, ops)) == t.trace + Events(Call(c, ops[1..]));
      assert s.cpus[c].doing + ops == t.cpus[c].doing + ops[1..];
      var u := t.(cpus := t.cpus[c := t.cpus[c].(doing := t.cpus[c].doing + ops[1..])], trace := t.trace + Events(Call(c, ops[1..])));
      assert u.cpus == s.cpus[c := s.cpus[c].(doing := s.cpus[c].doing + ops)];
      ReachTrans(s, t, u);
    }
  }

  /** And spin_unlock passes its check and gives the lock back. */
  lemma Releases(s: State, c: nat)
    requires c < |s.cpus| && s.cpus[c].pc == Critical && s.lock.locked && s.lock.cpu == Some(c) && |s.lock.pcs| == NPCS
    ensures Reach(s, With(s, c, s.cpus[c].(pc := Outside, doing := []), Lock(false, None, s.lock.pcs[0 := 0]))
                     .(calls := s.calls + [Call(c, s.cpus[c].doing)]))
  {
    var s1 := Do(s, Leave(c));
    ReachStep(s, Leave(c));
    var s2 := Do(s1, Go(c));
    ReachOneMore(s, s1, Go(c));
    var s3 := Do(s2, Go(c));
    ReachOneMore(s, s2, Go(c));
    var s4 := Do(s3, Go(c));
    ReachOneMore(s, s3, Go(c));
    var s5 := Do(s4, Go(c));
    ReachOneMore(s, s4, Go(c));
    ReachOneMore(s, s5, Go(c));
    assert Do(s5, Go(c)).cpus == s.cpus[c := s.cpus[c].(pc := Outside, doing := [])];
  }

  /** Whatever the other CPUs are doing, a free lock can be taken, any kernel entry made under it, and the lock be free
      again, with just that entry added to the record. */
  lemma EntryCompletes(s: State, c: nat, chain: seq<int>, ops: seq<int>) returns (t: State)
    requires Inv(s) && c < |s.cpus| && s.cpus[c].pc == Outside && !s.lock.locked && |chain| == NPCS
    ensures Reach(s, t) && !t.lock.locked && t.lock.cpu == None && t.cpus == s.cpus[c := Cpu(Outside, chain, [])]
    ensures t.calls == s.calls + [Call(c, ops)] && t.trace == s.trace + Events(Call(c, ops))
  {
    Acquires(s, c, chain);
    var s1 := With(s, c, Cpu(SetPcs(0), chain, []), Lock(true, Some(c), s.lock.pcs));
    Records(s1, c, 0);
    var s2 := With(s1, c, s1.cpus[c].(pc := Critical), s1.lock.(pcs := chain));
    ReachTrans(s, s1, s2);
    Works(s2, c, ops);
    var s3 := s2.(cpus := s2.cpus[c := s2.cpus[c].(doing := s2.cpus[c].doing + ops)], trace := s2.trace + Events(Call(c, ops)));
    ReachTrans(s, s2, s3);
    Releases(s3, c);
    t := With(s3, c, s3.cpus[c].(pc := Outside, doing := []), Lock(false, None, s3.lock.pcs[0 := 0]))
         .(calls := s3.calls + [Call(c, s3.cpus[c].doing)]);
    ReachTrans(s, s3, t);
    assert s3.cpus[c].doing == [] + ops == ops;
    assert t.cpus == s.cpus[c := Cpu(Outside, chain, [])];
  }
}
