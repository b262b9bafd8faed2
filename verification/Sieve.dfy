/** The concurrent prime sieve of user/primes.c: a chain of forked processes over the message channel, in any
    interleaving. Integers are mathematical; fork's child starts from its parent's variables. */
module Sieve {
  import opened Layout
  import opened Ipc
  import opened Kernel
  import opened IpcRuns
  import opened Primes

  /** Program counters: umain's, then primeproc's. fork is split where the child becomes runnable, ipc_recv into its
      system call and its two loads. */
  datatype Pc =
    | FeedFork | FeedStart | Feed
    | Top | TopCalled | TopLoaded | Print | Fork | Start
    | Loop | LoopCalled | LoopLoaded | Test | Sending
    | Panic

  /** The variables of one process. */
  datatype Proc = Proc(pc: Pc, i: int, p: int, id: EnvId, envid: EnvId)

  /** The system; the processes in the order they were forked, with their ids; and what they printed. */
  datatype Chain = Chain(sys: Sys, ids: seq<EnvId>, procs: seq<Proc>, log: seq<int>)

  datatype Step =
    | Sched(a: Action)                         // run or preempt an environment, or memory traffic
    | Prog(k: nat, child: EnvId, stale: Env)   // process k goes on; the kernel's choices if it forks

  predicate WellFormed(s: Chain) { |s.ids| == |s.procs| && forall k :: 0 <= k < |s.ids| ==> s.ids[k] in s.sys.k.envs }

  ghost predicate StepEnabled(s: Chain, st: Step)
  {
    match st
    case Sched(a) =>
      Enabled(s.sys, a) && (a.Run? || a.Preempt? || (a.Other? && a.k.envs == s.sys.k.envs))
    case Prog(k, child, _) =>
      && k < |s.procs| && k < |s.ids| && IsRunning(s.sys, s.ids[k])
      && (s.procs[k].pc in {FeedFork, Fork} ==> child != 0 && child !in s.sys.phase)
  }

  /** Process k goes on as r. */
  function Put(s: Chain, k: nat, sys: Sys, r: Proc): Chain
    requires k < |s.procs|
  {
    Chain(sys, s.ids, s.procs[k := r], s.log)
  }

  /** fork up to the child's being runnable: the child has the parent's variables, but id == 0, so it goes to top. */
  function Forked(s: Chain, k: nat, child: EnvId, stale: Env, pc: Pc): Chain
    requires k < |s.procs| == |s.ids|
  {
    Chain(Do(s.sys, Exofork(s.ids[k], child, stale)), s.ids + [child],
          s.procs[k := s.procs[k].(id := child, pc := pc)] + [s.procs[k].(id := 0, pc := Top)], s.log)
  }

  function Started(s: Chain, k: nat, next: Proc): Chain
    requires k < |s.procs| == |s.ids| && s.ids[k] in s.sys.k.envs
  {
    var r := s.procs[k];
    if SysEnvSetStatus(s.sys.k, s.ids[k], r.id, Runnable).Fail? then Put(s, k, s.sys, r.(pc := Panic))
    else Put(s, k, Do(s.sys, SetStatus(s.ids[k], r.id, Runnable)), next)
  }

  /** One round of ipc_send: on, again, or panic. */
  function Sends(s: Chain, k: nat, next: Proc): Chain
    requires k < |s.procs| == |s.ids| && s.ids[k] in s.sys.k.envs
  {
    var r := s.procs[k];
    match SysIpcTrySend(s.sys.k, s.ids[k], r.id, r.i, UTOP, {}, false)
    case Done(_) => Put(s, k, Do(s.sys, Send(s.ids[k], r.id, r.i, UTOP, {}, false)), next)
    case Fail(error) => Put(s, k, s.sys, if error == E_IPC_NOT_RECV then r else r.(pc := Panic))
  }

  function DoProg(s: Chain, k: nat, child: EnvId, stale: Env): Chain
    requires WellFormed(s) && k < |s.ids|
  {
    var r, e := s.procs[k], s.ids[k];
    var port := s.sys.k.envs[e].port;
    match r.pc
    case FeedFork => Forked(s, k, child, stale, FeedStart)
    case FeedStart => Started(s, k, r.(i := 2, pc := Feed))
    case Feed => Sends(s, k, r.(i := r.i + 1))
    case Top => Put(s, k, Do(s.sys, Recv(e, 0)), r.(pc := TopCalled))
    case TopCalled => Put(s, k, Do(s.sys, LoadFrom(e)), r.(envid := port.from, pc := TopLoaded))
    case TopLoaded => Put(s, k, Do(s.sys, LoadValue(e)), r.(p := port.value, pc := Print))
    case Print => Chain(s.sys, s.ids, s.procs[k := r.(pc := Fork)], s.log + [r.p])
    case Fork => Forked(s, k, child, stale, Start)
    case Start => Started(s, k, r.(pc := Loop))
    case Loop => Put(s, k, Do(s.sys, Recv(e, 0)), r.(pc := LoopCalled))
    case LoopCalled => Put(s, k, Do(s.sys, LoadFrom(e)), r.(envid := port.from, pc := LoopLoaded))
    case LoopLoaded => Put(s, k, Do(s.sys, LoadValue(e)), r.(i := port.value, pc := Test))
    case Test =>
      if r.p == 0 then Put(s, k, s.sys, r.(pc := Panic))
      else Put(s, k, s.sys, r.(pc := if r.i % r.p == 0 then Loop else Sending))
    case Sending => Sends(s, k, r.(pc := Loop))
    case Panic => s
  }

  function DoStep(s: Chain, st: Step): Chain
    requires WellFormed(s)
  {
    match st
    case Sched(a) => Chain(Do(s.sys, a), s.ids, s.procs, s.log)
    case Prog(k, child, stale) => if k < |s.ids| then DoProg(s, k, child, stale) else s
  }

  // ---------- the invariant ----------

  function Values(ms: seq<Msg>): seq<int> { seq(|ms|, j requires 0 <= j < |ms| => ms[j].value) }

  /** What process k has received, and what was sent to it. */
  function Got(s: Chain, k: nat): seq<int>
    requires k < |s.ids|
  {
    Values(History(s.sys.got, s.ids[k]))
  }

  function SentTo(s: Chain, k: nat): seq<int>
    requires k < |s.ids|
  {
    Values(History(s.sys.sent, s.ids[k]))
  }

  /** What process k sent on. */
  function Out(s: Chain, k: nat): seq<int>
    requires k < |s.ids|
  {
    if k + 1 < |s.ids| then SentTo(s, k + 1) else []
  }

  /** umain, given whether it is still alone and what it sent. */
  predicate FeederOk(r: Proc, last: bool, out: seq<int>)
  {
    match r.pc
    case FeedFork => last
    case FeedStart => !last && out == []
    case Feed => !last && r.i >= 2 && out == Survivors([], r.i)
    case _ => false
  }

  /** All of what was received, or all but the number in hand, has been through the filter. */
  predicate Filtered(p: int, got: seq<int>, out: seq<int>) { p >= 2 && got != [] && got[0] == p && out == Filter(p, got) }

  predicate InHand(r: Proc, got: seq<int>, out: seq<int>)
  {
    |got| >= 2 && got[|got| - 1] == r.i && Filtered(r.p, got[..|got| - 1], out)
  }

  /** primeproc, given what it received, whether it is still the end of the chain, and what it sent. */
  predicate PrimeprocOk(r: Proc, phase: Phase, got: seq<int>, last: bool, out: seq<int>)
  {
    match r.pc
    case Top => phase == Outside && got == [] && last
    case TopCalled => phase == Called && got == [] && last
    case TopLoaded => phase.Loaded? && got == [] && last
    case Print => phase == Outside && got == [r.p] && r.p >= 2 && last
    case Fork => phase == Outside && got == [r.p] && r.p >= 2 && last
    case Start => phase == Outside && got == [r.p] && r.p >= 2 && !last && out == []
    case Loop => phase == Outside && Filtered(r.p, got, out) && !last
    case LoopCalled => phase == Called && Filtered(r.p, got, out) && !last
    case LoopLoaded => phase.Loaded? && Filtered(r.p, got, out) && !last
    case Test => phase == Outside && InHand(r, got, out) && !last
    case Sending => phase == Outside && InHand(r, got, out) && !Divides(r.p, r.i) && !last
    case _ => false
  }

  /** Process k's successor is its child, and does nothing before fork has made it runnable. */
  predicate Linked(s: Chain, k: nat)
    requires WellFormed(s) && k + 1 < |s.ids|
  {
    && s.procs[k].id == s.ids[k + 1]
    && (s.procs[k].pc in {FeedStart, Start} ==>
          var child := s.sys.k.envs[s.ids[k + 1]];
          s.procs[k + 1].pc == Top && child.port.status == NotRunnable && child.parent == s.ids[k])
  }

  predicate ProcOk(s: Chain, k: nat)
    requires WellFormed(s) && k < |s.ids|
  {
    && s.ids[k] in s.sys.phase
    && (if k == 0 then
          s.sys.phase[s.ids[0]] == Outside && FeederOk(s.procs[0], k + 1 == |s.ids|, Out(s, k))
        else
          PrimeprocOk(s.procs[k], s.sys.phase[s.ids[k]], Got(s, k), k + 1 == |s.ids|, Out(s, k)))
    && (k + 1 < |s.ids| ==> Linked(s, k))
  }

  predicate HasPrinted(pc: Pc) { pc in {Fork, Start, Loop, LoopCalled, LoopLoaded, Test, Sending} }

  /** The printed lines are the p of processes 1, 2, ... */
  predicate LogOk(s: Chain)
    requires WellFormed(s) && s.ids != []
  {
    var last := |s.ids| - 1;
    && |s.log| == (if last == 0 then 0 else if HasPrinted(s.procs[last].pc) then last else last - 1)
    && forall j :: 0 <= j < |s.log| ==> s.log[j] == s.procs[j + 1].p
  }

  predicate Distinct(ids: seq<EnvId>) { forall i, j :: 0 <= i < j < |ids| ==> ids[i] != ids[j] }

  ghost predicate SieveInv(s: Chain)
  {
    && Inv(s.sys) && WellFormed(s) && s.ids != [] && Distinct(s.ids)
    && (forall k :: 0 <= k < |s.ids| ==> ProcOk(s, k))
    && LogOk(s)
  }

  // ---------- streams ----------

  /** The numbers the first k filters hold. */
  function Held(s: Chain, k: nat): seq<int>
    requires WellFormed(s) && k < |s.ids|
  {
    seq(k, j requires 0 <= j < k => s.procs[j + 1].p)
  }

  lemma ValuesPrefix(a: seq<Msg>, b: seq<Msg>)
    requires a <= b
    ensures Values(a) <= Values(b)
  {
  }

  lemma GotIsPrefix(s: Chain, k: nat)
    requires Inv(s.sys) && k < |s.ids|
    ensures Got(s, k) <= SentTo(s, k)
  {
    assert InOrder(History(s.sys.sent, s.ids[k]), History(s.sys.got, s.ids[k]));
    ValuesPrefix(History(s.sys.got, s.ids[k]), History(s.sys.sent, s.ids[k]));
  }

  /** What process k sent on is a filtered prefix of what it received. */
  lemma OutIsFiltered(s: Chain, k: nat) returns (got: seq<int>)
    requires SieveInv(s) && 1 <= k && k + 1 < |s.ids|
    ensures s.procs[k].p >= 2 && got <= Got(s, k)
    ensures Out(s, k) == [] || Out(s, k) == Filter(s.procs[k].p, got)
  {
    assert ProcOk(s, k);
    var g := Got(s, k);
    got := if s.procs[k].pc in {Test, Sending} then g[..|g| - 1] else g;
  }

  /** The stream entering process k + 1 is a prefix of the integers >= 2 that the first k filters let through. */
  lemma {:induction false} StreamIn(s: Chain, k: nat) returns (b: int)
    requires SieveInv(s) && k + 1 < |s.ids|
    ensures Moduli(Held(s, k)) && SentTo(s, k + 1) == Survivors(Held(s, k), b)
    decreases k
  {
    if k == 0 {
      assert ProcOk(s, 0);
      assert Held(s, 0) == [];
      b := if s.procs[0].pc == FeedStart then 2 else s.procs[0].i;
    } else {
      var c := StreamIn(s, k - 1);
      var got := OutIsFiltered(s, k);
      var held, p := Held(s, k - 1), s.procs[k].p;
      assert Held(s, k) == held + [p];
      GotIsPrefix(s, k);
      b := FilteredStream(held, c, SentTo(s, k), got, p, Out(s, k));
    }
  }

  lemma FilteredStream(held: seq<int>, c: int, s: seq<int>, got: seq<int>, p: int, out: seq<int>) returns (b: int)
    requires Moduli(held) && p >= 2 && s == Survivors(held, c) && got <= s && (out == [] || out == Filter(p, got))
    ensures Moduli(held + [p]) && out == Survivors(held + [p], b)
  {
    if out == [] {
      b := 2;
    } else {
      b := PrefixOfSurvivors(held, c, got);
      FilterSurvivors(held, p, b);
    }
  }

  // ---------- every step keeps the invariant ----------

  /** From s to t only process k moved: its own variables, phase, results and environment, and what was sent to its
      successor, which may have been woken. */
  ghost predicate OnlyProc(s: Chain, t: Chain, k: nat)
    requires WellFormed(s) && k < |s.ids|
  {
    && t.ids == s.ids && |t.procs| == |s.procs| && WellFormed(t)
    && (forall j :: 0 <= j < |s.ids| && j != k ==> t.procs[j] == s.procs[j])
    && (forall e :: e in s.sys.phase ==> e in t.sys.phase && (e != s.ids[k] ==> t.sys.phase[e] == s.sys.phase[e]))
    && (forall e :: e != s.ids[k] ==> History(t.sys.got, e) == History(s.sys.got, e))
    && (forall e :: !(k + 1 < |s.ids| && e == s.ids[k + 1]) ==> History(t.sys.sent, e) == History(s.sys.sent, e))
    && (forall e :: e in s.sys.k.envs && e != s.ids[k] && !(k + 1 < |s.ids| && e == s.ids[k + 1]) ==>
          e in t.sys.k.envs && t.sys.k.envs[e] == s.sys.k.envs[e])
  }

  lemma OthersStay(s: Chain, t: Chain, k: nat, j: nat)
    requires SieveInv(s) && k < |s.ids| && IsRunning(s.sys, s.ids[k]) && OnlyProc(s, t, k)
    requires j < |s.ids| && j != k
    ensures ProcOk(t, j)
  {
    assert ProcOk(s, j);
    assert s.ids[j] != s.ids[k];
    if j + 1 < |s.ids| { assert Out(t, j) == Out(s, j); }
  }

  /** Assembling the invariant after a step of process k that prints nothing. */
  lemma Assemble(s: Chain, t: Chain, k: nat)
    requires SieveInv(s) && k < |s.ids| && IsRunning(s.sys, s.ids[k]) && OnlyProc(s, t, k)
    requires Inv(t.sys) && ProcOk(t, k) && t.log == s.log
    requires HasPrinted(t.procs[k].pc) == HasPrinted(s.procs[k].pc)
    requires HasPrinted(s.procs[k].pc) ==> t.procs[k].p == s.procs[k].p
    ensures SieveInv(t)
  {
    assert ProcOk(s, k);
    forall j | 0 <= j < |t.ids| ensures ProcOk(t, j) {
      if j != k { OthersStay(s, t, k, j); }
    }
    AssembleLog(s, t, k);
  }

  lemma AssembleLog(s: Chain, t: Chain, k: nat)
    requires WellFormed(s) && WellFormed(t) && k < |s.ids| && t.ids == s.ids && LogOk(s) && t.log == s.log
    requires k == 0 ==> !HasPrinted(s.procs[0].pc)
    requires forall j :: 0 <= j < |s.ids| && j != k ==> t.procs[j] == s.procs[j]
    requires HasPrinted(t.procs[k].pc) == HasPrinted(s.procs[k].pc)
    requires k > 0 && (HasPrinted(s.procs[k].pc) || k + 1 < |s.ids|) ==> t.procs[k].p == s.procs[k].p
    ensures LogOk(t)
  {
  }

  lemma RecvEffect(s: Sys, e: EnvId)
    requires IsRunning(s, e)
    ensures var t := Do(s, Recv(e, 0));
      && t.phase == s.phase[e := Called] && t.sent == s.sent && t.got == s.got
      && t.k.envs.Keys == s.k.envs.Keys && forall x :: x in s.k.envs && x != e ==> t.k.envs[x] == s.k.envs[x]
  {
    assert Aligned(0);
  }

  lemma KeepCall(s: Chain, k: nat, child: EnvId, stale: Env)
    requires SieveInv(s) && StepEnabled(s, Prog(k, child, stale)) && s.procs[k].pc in {Top, Loop}
    ensures SieveInv(DoProg(s, k, child, stale))
  {
    var t, a := DoProg(s, k, child, stale), Recv(s.ids[k], 0);
    assert ProcOk(s, k);
    RecvEffect(s.sys, s.ids[k]);
    KeepRecv(s.sys, a);
    CallOk(s, t, k);
    Assemble(s, t, k);
  }

  /** Process k, past sys_ipc_recv or the load of env_ipc_from. */
  lemma CallOk(s: Chain, t: Chain, k: nat)
    requires SieveInv(s) && k < |s.ids| && OnlyProc(s, t, k) && ProcOk(s, k)
    requires t.sys.sent == s.sys.sent && t.sys.got == s.sys.got && t.sys.k.envs.Keys == s.sys.k.envs.Keys
    requires t.procs[k] == s.procs[k].(pc := t.procs[k].pc, envid := t.procs[k].envid)
    requires match s.procs[k].pc
             case Top => t.procs[k].pc == TopCalled && InPhase(t.sys, s.ids[k], Called)
             case Loop => t.procs[k].pc == LoopCalled && InPhase(t.sys, s.ids[k], Called)
             case TopCalled => t.procs[k].pc == TopLoaded && s.ids[k] in t.sys.phase && t.sys.phase[s.ids[k]].Loaded?
             case LoopCalled => t.procs[k].pc == LoopLoaded && s.ids[k] in t.sys.phase && t.sys.phase[s.ids[k]].Loaded?
             case _ => false
    ensures ProcOk(t, k)
  {
    assert Got(t, k) == Got(s, k) && Out(t, k) == Out(s, k);
  }

  lemma KeepFrom(s: Chain, k: nat, child: EnvId, stale: Env)
    requires SieveInv(s) && StepEnabled(s, Prog(k, child, stale)) && s.procs[k].pc in {TopCalled, LoopCalled}
    ensures SieveInv(DoProg(s, k, child, stale))
  {
    var t, a := DoProg(s, k, child, stale), LoadFrom(s.ids[k]);
    assert ProcOk(s, k);
    KeepLoad(s.sys, a);
    CallOk(s, t, k);
    Assemble(s, t, k);
  }

  // --- ipc_recv's second load ---

  /** A receiver about to load env_ipc_value has exactly one message to come, and gets it. */
  lemma ValueEffect(s: Sys, e: EnvId)
    requires Inv(s) && IsRunning(s, e) && e in s.phase && s.phase[e].Loaded?
    ensures var t, v := Do(s, LoadValue(e)), s.k.envs[e].port.value;
      && t.phase == s.phase[e := Outside] && t.sent == s.sent && t.k == s.k
      && (forall x :: x != e ==> History(t.got, x) == History(s.got, x))
      && Values(History(t.got, e)) == Values(History(s.got, e)) + [v]
      && Values(History(s.sent, e)) == Values(History(s.got, e)) + [v]
  {
    assert EnvOk(s.k.envs[e].port, s.phase[e], History(s.sent, e), History(s.got, e));
  }

  /** Everything that reaches the head of the chain is at least 2. */
  lemma {:induction false} SurvivorsAtLeast2(ps: seq<int>, b: int)
    requires Moduli(ps)
    ensures forall j :: 0 <= j < |Survivors(ps, b)| ==> Survivors(ps, b)[j] >= 2
    decreases b
  {
    if b > 2 { SurvivorsAtLeast2(ps, b - 1); }
  }

  lemma SentAtLeast2(s: Chain, k: nat)
    requires SieveInv(s) && 1 <= k < |s.ids|
    ensures forall j :: 0 <= j < |SentTo(s, k)| ==> SentTo(s, k)[j] >= 2
  {
    var b := StreamIn(s, k - 1);
    SurvivorsAtLeast2(Held(s, k - 1), b);
  }

  lemma ValueOk(s: Chain, t: Chain, k: nat, v: int)
    requires SieveInv(s) && k < |s.ids| && OnlyProc(s, t, k) && ProcOk(s, k)
    requires t.sys.sent == s.sys.sent && t.sys.k.envs == s.sys.k.envs
    requires Got(t, k) == Got(s, k) + [v] && InPhase(t.sys, s.ids[k], Outside) && v >= 2
    requires match s.procs[k].pc
             case TopLoaded => t.procs[k] == s.procs[k].(p := v, pc := Print)
             case LoopLoaded => t.procs[k] == s.procs[k].(i := v, pc := Test)
             case _ => false
    ensures ProcOk(t, k)
  {
    assert Out(t, k) == Out(s, k);
    var g := Got(t, k);
    assert g[..|g| - 1] == Got(s, k);
  }

  lemma KeepValue(s: Chain, k: nat, child: EnvId, stale: Env)
    requires SieveInv(s) && StepEnabled(s, Prog(k, child, stale)) && s.procs[k].pc in {TopLoaded, LoopLoaded}
    ensures SieveInv(DoProg(s, k, child, stale))
  {
    var t, e := DoProg(s, k, child, stale), s.ids[k];
    var v := s.sys.k.envs[e].port.value;
    assert ProcOk(s, k);
    ValueEffect(s.sys, e);
    assert Inv(t.sys) by { KeepLoad(s.sys, LoadValue(e)); }
    assert v >= 2 by {
      SentAtLeast2(s, k);
      assert SentTo(s, k)[|Got(s, k)|] == v;
    }
    ValueOk(s, t, k, v);
    Assemble(s, t, k);
  }

  // --- the program's own steps ---

  lemma KeepTest(s: Chain, k: nat, child: EnvId, stale: Env)
    requires SieveInv(s) && StepEnabled(s, Prog(k, child, stale)) && s.procs[k].pc == Test
    ensures SieveInv(DoProg(s, k, child, stale))
  {
    var t := DoProg(s, k, child, stale);
    assert ProcOk(s, k);
    TestOk(s, t, k);
    Assemble(s, t, k);
  }

  lemma TestOk(s: Chain, t: Chain, k: nat)
    requires WellFormed(s) && k < |s.ids| && ProcOk(s, k) && s.procs[k].pc == Test
    requires t == Put(s, k, s.sys, s.procs[k].(pc := if Divides(s.procs[k].p, s.procs[k].i) then Loop else Sending))
    ensures WellFormed(t) && ProcOk(t, k)
  {
    assert Got(t, k) == Got(s, k) && Out(t, k) == Out(s, k);
    var g := Got(s, k);
    if k > 0 && Divides(s.procs[k].p, s.procs[k].i) { FilterSnoc(s.procs[k].p, g[..|g| - 1], g[|g| - 1]); }
    assert g != [] ==> g == g[..|g| - 1] + [g[|g| - 1]];
  }

  lemma KeepPrint(s: Chain, k: nat, child: EnvId, stale: Env)
    requires SieveInv(s) && StepEnabled(s, Prog(k, child, stale)) && s.procs[k].pc == Print
    ensures SieveInv(DoProg(s, k, child, stale))
  {
    var t := DoProg(s, k, child, stale);
    assert ProcOk(s, k);
    assert Got(t, k) == Got(s, k) && Out(t, k) == Out(s, k);
    forall j | 0 <= j < |t.ids| ensures ProcOk(t, j) {
      if j != k { OthersStay(s, t, k, j); }
    }
  }

  // --- ipc_send ---

  /** A send to an existing environment is accepted by one blocked and empty, and otherwise changes nothing. */
  lemma SendEffect(s: Sys, e: EnvId, d: EnvId, v: int)
    requires Inv(s) && IsRunning(s, e) && d in s.k.envs
    ensures var o := SysIpcTrySend(s.k, e, d, v, UTOP, {}, false);
      if o.Done? then
        var t := Do(s, Send(e, d, v, UTOP, {}, false));
        && s.k.envs[d].port.status == NotRunnable && s.phase[d] == Called
        && t.phase == s.phase && t.got == s.got && t.k.envs.Keys == s.k.envs.Keys
        && (forall x :: x in s.k.envs && x != d ==> t.k.envs[x] == s.k.envs[x])
        && (forall x :: x != d ==> History(t.sent, x) == History(s.sent, x))
        && Values(History(t.sent, d)) == Values(History(s.sent, d)) + [v]
      else o.error == E_IPC_NOT_RECV
  {
    assert EnvOk(s.k.envs[d].port, s.phase[d], History(s.sent, d), History(s.got, d));
  }

  lemma SendOk(s: Chain, t: Chain, k: nat)
    requires SieveInv(s) && k < |s.ids| && OnlyProc(s, t, k) && ProcOk(s, k) && k + 1 < |s.ids|
    requires t.sys.phase == s.sys.phase && t.sys.got == s.sys.got
    requires Out(t, k) == Out(s, k) + [s.procs[k].i]
    requires match s.procs[k].pc
             case Feed => t.procs[k] == s.procs[k].(i := s.procs[k].i + 1)
             case Sending => t.procs[k] == s.procs[k].(pc := Loop)
             case _ => false
    ensures ProcOk(t, k)
  {
    assert Got(t, k) == Got(s, k);
    if k == 0 {
      assert Survivors([], s.procs[0].i + 1) == Survivors([], s.procs[0].i) + [s.procs[0].i];
    }
  }

  lemma KeepSending(s: Chain, k: nat, child: EnvId, stale: Env)
    requires SieveInv(s) && StepEnabled(s, Prog(k, child, stale)) && s.procs[k].pc in {Feed, Sending}
    ensures SieveInv(DoProg(s, k, child, stale))
  {
    assert ProcOk(s, k);
    var t, e, d, v := DoProg(s, k, child, stale), s.ids[k], s.ids[k + 1], s.procs[k].i;
    SendEffect(s.sys, e, d, v);
    if SysIpcTrySend(s.sys.k, e, d, v, UTOP, {}, false).Done? {
      KeepSent(s, t, k, e, d, v);
    } else {
      assert t.procs == s.procs;
    }
  }

  lemma KeepSent(s: Chain, t: Chain, k: nat, e: EnvId, d: EnvId, v: int)
    requires SieveInv(s) && k + 1 < |s.ids| && IsRunning(s.sys, s.ids[k]) && ProcOk(s, k)
    requires e == s.ids[k] && d == s.ids[k + 1] && v == s.procs[k].i
    requires SysIpcTrySend(s.sys.k, e, d, v, UTOP, {}, false).Done? && InPhase(s.sys, e, Outside)
    requires match s.procs[k].pc
             case Feed => t == Put(s, k, Do(s.sys, Send(e, d, v, UTOP, {}, false)), s.procs[k].(i := v + 1))
             case Sending => t == Put(s, k, Do(s.sys, Send(e, d, v, UTOP, {}, false)), s.procs[k].(pc := Loop))
             case _ => false
    ensures SieveInv(t)
  {
    assert Inv(t.sys) by { KeepSend(s.sys, Send(e, d, v, UTOP, {}, false)); }
    SentOnly(s, t, k, e, d, v);
    SendOk(s, t, k);
    Assemble(s, t, k);
  }

  lemma SentOnly(s: Chain, t: Chain, k: nat, e: EnvId, d: EnvId, v: int)
    requires SieveInv(s) && k + 1 < |s.ids| && IsRunning(s.sys, s.ids[k]) && e == s.ids[k] && d == s.ids[k + 1]
    requires SysIpcTrySend(s.sys.k, e, d, v, UTOP, {}, false).Done?
    requires k < |t.procs| && t == Put(s, k, Do(s.sys, Send(e, d, v, UTOP, {}, false)), t.procs[k])
    ensures OnlyProc(s, t, k) && t.sys.phase == s.sys.phase && t.sys.got == s.sys.got && Out(t, k) == Out(s, k) + [v]
  {
    SendEffect(s.sys, e, d, v);
    assert d != e;
  }

  // --- fork ---

  lemma ForkEffect(s: Sys, e: EnvId, child: EnvId, stale: Env)
    requires Inv(s) && Enabled(s, Exofork(e, child, stale))
    ensures var t := Do(s, Exofork(e, child, stale));
      && t.phase == s.phase[child := Outside] && t.sent == s.sent && t.got == s.got
      && History(s.sent, child) == [] && History(s.got, child) == []
      && child !in s.k.envs && t.k.envs == s.k.envs[child := NewEnv(e, stale)]
  {
  }

  lemma ForkOthers(s: Chain, k: nat, child: EnvId, stale: Env, pc: Pc, j: nat)
    requires SieveInv(s) && k + 1 == |s.ids| && Enabled(s.sys, Exofork(s.ids[k], child, stale)) && j < k
    ensures var t := Forked(s, k, child, stale, pc); WellFormed(t) && ProcOk(t, j)
  {
    var t := Forked(s, k, child, stale, pc);
    ForkEffect(s.sys, s.ids[k], child, stale);
    assert ProcOk(s, j);
    assert s.ids[j] != child && s.ids[j + 1] != child;
    assert t.ids[j] == s.ids[j] && t.ids[j + 1] == s.ids[j + 1] && t.procs[j] == s.procs[j];
    assert Out(t, j) == Out(s, j) && Got(t, j) == Got(s, j);
  }

  /** Where fork goes on once the child exists. */
  function AfterFork(pc: Pc): Pc { if pc == FeedFork then FeedStart else Start }

  /** Parent and child right after fork's sys_exofork. */
  lemma ForkOk(s: Chain, k: nat, child: EnvId, stale: Env)
    requires SieveInv(s) && StepEnabled(s, Prog(k, child, stale)) && s.procs[k].pc in {FeedFork, Fork}
    ensures k + 1 == |s.ids| && Enabled(s.sys, Exofork(s.ids[k], child, stale)) && (s.procs[k].pc == FeedFork <==> k == 0)
    ensures var t := Forked(s, k, child, stale, AfterFork(s.procs[k].pc));
      WellFormed(t) && ProcOk(t, k) && ProcOk(t, k + 1)
  {
    var t := Forked(s, k, child, stale, AfterFork(s.procs[k].pc));
    assert ProcOk(s, k);
    assert s.sys.phase[s.ids[k]] == Outside;
    ForkEffect(s.sys, s.ids[k], child, stale);
    assert s.ids[k] != child;
    assert t.ids[k] == s.ids[k] && t.ids[k + 1] == child;
    assert Got(t, k) == Got(s, k) && Out(t, k) == [] && Got(t, k + 1) == [];
  }

  lemma KeepFork(s: Chain, k: nat, child: EnvId, stale: Env)
    requires SieveInv(s) && StepEnabled(s, Prog(k, child, stale)) && s.procs[k].pc in {FeedFork, Fork}
    ensures SieveInv(Forked(s, k, child, stale, AfterFork(s.procs[k].pc)))
  {
    var t := Forked(s, k, child, stale, AfterFork(s.procs[k].pc));
    ForkOk(s, k, child, stale);
    assert Inv(t.sys) by { KeepEnvs(s.sys, Exofork(s.ids[k], child, stale)); }
    forall j | 0 <= j < k ensures ProcOk(t, j) { ForkOthers(s, k, child, stale, AfterFork(s.procs[k].pc), j); }
    assert Distinct(t.ids) by { ForkDistinct(s, child); }
    assert LogOk(t) by { ForkLog(s, k, t); }
  }

  lemma ForkDistinct(s: Chain, child: EnvId)
    requires SieveInv(s) && child !in s.sys.phase
    ensures Distinct(s.ids + [child])
  {
    forall i | 0 <= i < |s.ids| ensures s.ids[i] != child { assert ProcOk(s, i); }
  }

  lemma ForkLog(s: Chain, k: nat, t: Chain)
    requires WellFormed(s) && WellFormed(t) && k + 1 == |s.ids| && LogOk(s) && |t.ids| == k + 2 && t.log == s.log
    requires s.procs[k].pc in {FeedFork, Fork} && (s.procs[k].pc == FeedFork <==> k == 0)
    requires forall j :: 0 <= j <= k ==> t.procs[j].p == s.procs[j].p
    requires t.procs[k + 1].pc == Top
    ensures LogOk(t)
  {
  }

  /** fork's last call makes the child runnable. */
  lemma StartEffect(s: Sys, e: EnvId, d: EnvId)
    requires Inv(s) && IsRunning(s, e) && InPhase(s, e, Outside) && d in s.k.envs && s.k.envs[d].parent == e
    requires InPhase(s, d, Outside)
    ensures SysEnvSetStatus(s.k, e, d, Runnable).Done? && Spares(s, SetStatus(e, d, Runnable))
    ensures var t := Do(s, SetStatus(e, d, Runnable));
      && t.phase == s.phase && t.sent == s.sent && t.got == s.got && t.k.envs.Keys == s.k.envs.Keys
      && forall x :: x in s.k.envs && x != d ==> t.k.envs[x] == s.k.envs[x]
  {
    assert EnvOk(s.k.envs[d].port, s.phase[d], History(s.sent, d), History(s.got, d));
  }

  lemma StartOk(s: Chain, t: Chain, k: nat)
    requires SieveInv(s) && k < |s.ids| && OnlyProc(s, t, k) && ProcOk(s, k) && k + 1 < |s.ids|
    requires t.sys.phase == s.sys.phase && t.sys.got == s.sys.got && t.sys.sent == s.sys.sent
    requires match s.procs[k].pc
             case FeedStart => t.procs[k] == s.procs[k].(i := 2, pc := Feed)
             case Start => t.procs[k] == s.procs[k].(pc := Loop)
             case _ => false
    ensures ProcOk(t, k)
  {
    assert Got(t, k) == Got(s, k) && Out(t, k) == Out(s, k) == [];
    var p := s.procs[k].p;
    if k > 0 {
      assert [p][..0] == [] && Divides(p, p);
      assert Filter(p, [p]) == [];
    }
  }

  lemma KeepStart(s: Chain, k: nat, child: EnvId, stale: Env)
    requires SieveInv(s) && StepEnabled(s, Prog(k, child, stale)) && s.procs[k].pc in {FeedStart, Start}
    ensures SieveInv(DoProg(s, k, child, stale))
  {
    var t, e := DoProg(s, k, child, stale), s.ids[k];
    assert ProcOk(s, k);
    var d := s.ids[k + 1];
    assert ProcOk(s, k + 1);
    StartEffect(s.sys, e, d);
    KeepStatus(s.sys, SetStatus(e, d, Runnable));
    assert d != e;
    StartOk(s, t, k);
    Assemble(s, t, k);
  }

  // --- the scheduler ---

  lemma SchedEffect(s: Sys, a: Action)
    requires Enabled(s, a) && (a.Run? || a.Preempt? || (a.Other? && a.k.envs == s.k.envs))
    ensures var t := Do(s, a);
      && t.phase == s.phase && t.sent == s.sent && t.got == s.got && t.k.envs.Keys == s.k.envs.Keys
      && forall x :: x in s.k.envs ==>
           t.k.envs[x].parent == s.k.envs[x].parent
           && (s.k.envs[x].port.status == NotRunnable ==> t.k.envs[x].port.status == NotRunnable)
  {
  }

  lemma SchedOk(s: Chain, t: Chain, j: nat)
    requires SieveInv(s) && WellFormed(t) && j < |s.ids| && t.ids == s.ids && t.procs == s.procs
    requires t.sys.phase == s.sys.phase && t.sys.sent == s.sys.sent && t.sys.got == s.sys.got
    requires forall x :: x in s.sys.k.envs && x in t.sys.k.envs ==>
               t.sys.k.envs[x].parent == s.sys.k.envs[x].parent
               && (s.sys.k.envs[x].port.status == NotRunnable ==> t.sys.k.envs[x].port.status == NotRunnable)
    ensures ProcOk(t, j)
  {
    assert ProcOk(s, j);
    assert Got(t, j) == Got(s, j) && Out(t, j) == Out(s, j);
  }

  lemma KeepSched(s: Chain, st: Step)
    requires SieveInv(s) && StepEnabled(s, st) && st.Sched?
    ensures SieveInv(DoStep(s, st))
  {
    var t := DoStep(s, st);
    SchedEffect(s.sys, st.a);
    assert Inv(t.sys) by {
      if st.a.Other? { KeepEnvs(s.sys, st.a); } else { KeepStatus(s.sys, st.a); }
    }
    forall j | 0 <= j < |t.ids| ensures ProcOk(t, j) { SchedOk(s, t, j); }
  }

  lemma KeepStep(s: Chain, st: Step)
    requires SieveInv(s) && StepEnabled(s, st)
    ensures SieveInv(DoStep(s, st))
  {
    match st {
      case Sched(_) => KeepSched(s, st);
      case Prog(k, child, stale) =>
        assert ProcOk(s, k);
        var pc := s.procs[k].pc;
        if pc in {Top, Loop} { KeepCall(s, k, child, stale); }
        else if pc in {TopCalled, LoopCalled} { KeepFrom(s, k, child, stale); }
        else if pc in {TopLoaded, LoopLoaded} { KeepValue(s, k, child, stale); }
        else if pc in {FeedFork, Fork} { KeepFork(s, k, child, stale); }
        else if pc in {FeedStart, Start} { KeepStart(s, k, child, stale); }
        else if pc in {Feed, Sending} { KeepSending(s, k, child, stale); }
        else if pc == Test { KeepTest(s, k, child, stale); }
        else { KeepPrint(s, k, child, stale); }
    }
  }

  // ---------- whole runs ----------

  ghost predicate LegalSteps(s: Chain, steps: seq<Step>)
    decreases |steps|
  {
    steps == [] || (WellFormed(s) && StepEnabled(s, steps[0]) && LegalSteps(DoStep(s, steps[0]), steps[1..]))
  }

  function Run(s: Chain, steps: seq<Step>): Chain
    decreases |steps|
  {
    if steps == [] || !WellFormed(s) then s else Run(DoStep(s, steps[0]), steps[1..])
  }

  /** umain about to fork, and no message sent yet. */
  ghost predicate InitSieve(s: Chain)
  {
    Init(s.sys) && |s.ids| == |s.procs| == 1 && s.ids[0] in s.sys.k.envs && s.procs[0].pc == FeedFork && s.log == []
  }

  lemma {:induction false} SieveInvAlong(s: Chain, steps: seq<Step>)
    requires SieveInv(s) && LegalSteps(s, steps)
    ensures SieveInv(Run(s, steps))
    decreases |steps|
  {
    if steps != [] {
      KeepStep(s, steps[0]);
      SieveInvAlong(DoStep(s, steps[0]), steps[1..]);
    }
  }

  /** s lists, in order and from the start, integers >= 2 that none of ps divides, leaving none out. */
  ghost predicate Stream(ps: seq<int>, s: seq<int>) { Moduli(ps) && exists b :: s == Survivors(ps, b) }

  lemma HeadIsHeld(s: Chain, k: nat) returns (b: int)
    requires SieveInv(s) && 0 < k < |s.ids| && HasPrinted(s.procs[k].pc)
    ensures Moduli(Held(s, k - 1)) && Survivors(Held(s, k - 1), b) != []
    ensures Survivors(Held(s, k - 1), b)[0] == s.procs[k].p
  {
    b := StreamIn(s, k - 1);
    assert ProcOk(s, k);
    GotIsPrefix(s, k);
    assert SentTo(s, k)[0] == Got(s, k)[0] == s.procs[k].p;
  }

  lemma EarlierHavePrinted(s: Chain, k: nat)
    requires SieveInv(s) && 0 < k && k + 1 < |s.ids|
    ensures HasPrinted(s.procs[k].pc)
  {
    assert ProcOk(s, k);
  }

  /** What the first k filters hold, if the k-th has printed, are the first k primes. */
  lemma {:induction false} HeldArePrimes(s: Chain, k: nat)
    requires SieveInv(s) && k < |s.ids| && (k > 0 ==> HasPrinted(s.procs[k].pc))
    ensures FirstPrimes(Held(s, k))
    decreases k
  {
    if k > 0 {
      if k > 1 { EarlierHavePrinted(s, k - 1); }
      HeldArePrimes(s, k - 1);
      var b := HeadIsHeld(s, k);
      assert Held(s, k) == Held(s, k - 1) + [s.procs[k].p];
      HeadIsNextPrime(Held(s, k - 1), b);
    }
  }

  lemma LogIsHeld(s: Chain)
    requires SieveInv(s)
    ensures |s.log| < |s.ids| <= |s.log| + 2 && s.log == Held(s, |s.log|) && FirstPrimes(s.log)
  {
    var n := |s.log|;
    assert ProcOk(s, |s.ids| - 1);
    assert s.log == Held(s, n);
    if 0 < n && n + 1 < |s.ids| { EarlierHavePrinted(s, n); }
    HeldArePrimes(s, n);
  }

  lemma StreamOfLog(s: Chain, k: nat)
    requires SieveInv(s) && 1 <= k < |s.ids| && k - 1 <= |s.log| && s.log == Held(s, |s.log|)
    ensures Stream(s.log[..k - 1], SentTo(s, k))
  {
    var b := StreamIn(s, k - 1);
    assert Held(s, k - 1) == s.log[..k - 1];
  }

  /** In every interleaving: the log is the first |log| primes in order, line k by process k; the stream entering process
      k is the integers >= 2, up to some bound, that the first k - 1 primes do not divide; and no process panics. */
  lemma SievePrintsPrimes(s: Chain, steps: seq<Step>)
    requires InitSieve(s) && LegalSteps(s, steps)
    ensures var t := Run(s, steps);
      && WellFormed(t) && |t.log| < |t.ids| <= |t.log| + 2 && FirstPrimes(t.log)
      && (forall k :: 1 <= k <= |t.log| ==> t.log[k - 1] == t.procs[k].p)
      && (forall k :: 1 <= k < |t.ids| ==> Stream(t.log[..k - 1], SentTo(t, k)))
      && (forall k :: 0 <= k < |t.ids| ==> t.procs[k].pc != Panic)
  {
    InitHolds(s);
    SieveInvAlong(s, steps);
    var t := Run(s, steps);
    LogIsHeld(t);
    forall k | 0 <= k < |t.ids| ensures t.procs[k].pc != Panic { assert ProcOk(t, k); }
    forall k | 1 <= k < |t.ids| ensures Stream(t.log[..k - 1], SentTo(t, k)) { StreamOfLog(t, k); }
  }

  lemma InitHolds(s: Chain)
    requires InitSieve(s)
    ensures SieveInv(s)
  {
    assert WellFormed(s);
    assert ProcOk(s, 0);
  }
}
