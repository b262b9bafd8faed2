/** Message passing between any number of environments: every interleaving of system calls and of the loads by which
    ipc_recv (lib/ipc.c) picks up a message. */
module IpcRuns {
  import opened Types
  import opened Layout
  import opened Ipc
  import opened Kernel

  datatype Msg = Msg(from: EnvId, value: int)

  /** Where an environment is in ipc_recv: outside it; past sys_ipc_recv; past the load of env_ipc_from. */
  datatype Phase = Outside | Called | Loaded(from: EnvId)

  /** The kernel, the phase of every environment that ever existed, and two histories: per receiver, the sends that
      returned 0, and what ipc_recv returned. */
  datatype Sys = Sys(k: State, phase: map<EnvId, Phase>, sent: map<EnvId, seq<Msg>>, got: map<EnvId, seq<Msg>>)

  function History(h: map<EnvId, seq<Msg>>, e: EnvId): seq<Msg> { if e in h then h[e] else [] }

  datatype Action =
    | Run(e: EnvId)
    | Preempt(e: EnvId)
    | Send(e: EnvId, to: EnvId, value: int, srcva: nat, perm: Perm, tables: bool)
    | Recv(e: EnvId, dstva: nat)
    | LoadFrom(e: EnvId)
    | LoadValue(e: EnvId)
    | SetStatus(e: EnvId, target: EnvId, status: Status)
    | Exofork(e: EnvId, child: EnvId, stale: Env)
    | Destroy(e: EnvId)
    | Other(k: State) // any other call or instruction: the environment table's IPC fields stay, mappings are below UTOP

  predicate IsRunning(s: Sys, e: EnvId) { e in s.k.envs && s.k.envs[e].port.status == Running }

  predicate InPhase(s: Sys, e: EnvId, p: Phase) { e in s.phase && s.phase[e] == p }

  /** What sys_env_set_status may not be used for, waking a blocked receiver; and no page may be sent to an address at or
      above UTOP, where it could take the place of the environment table ipc_recv reads. */
  predicate Spares(s: Sys, a: Action)
  {
    match a
    case SetStatus(e, target, status) =>
      var t := if target == 0 then e else target;
      t in s.k.envs && s.k.envs[t].port.recving ==> status != Runnable
    case Send(e, to, value, srcva, perm, tables) => e in s.k.envs ==> !MapsHigh(s.k, e, to, value, srcva, perm, tables)
    case _ => true
  }

  ghost predicate Enabled(s: Sys, a: Action)
  {
    match a
    case Run(e) => e in s.k.envs && s.k.envs[e].port.status == Runnable
    case Preempt(e) => IsRunning(s, e)
    case Send(e, _, _, _, _, _) => IsRunning(s, e) && InPhase(s, e, Outside)
    case Recv(e, _) => IsRunning(s, e) && InPhase(s, e, Outside)
    case LoadFrom(e) => IsRunning(s, e) && InPhase(s, e, Called)
    case LoadValue(e) => IsRunning(s, e) && e in s.phase && s.phase[e].Loaded?
    case SetStatus(e, _, _) => IsRunning(s, e) && InPhase(s, e, Outside)
    case Exofork(e, child, _) => IsRunning(s, e) && InPhase(s, e, Outside) && child != 0 && child !in s.phase
    case Destroy(e) => e in s.k.envs
    case Other(k) => Below(k) && k.envs.Keys == s.k.envs.Keys && forall e :: e in k.envs ==> k.envs[e].port == s.k.envs[e].port
  }

  function With(s: Sys, o: Outcome): Sys { if o.Done? then Sys(o.s, s.phase, s.sent, s.got) else s }

  function SetStatusOf(s: Sys, e: EnvId, status: Status): Sys
    requires e in s.k.envs
  {
    Sys(SetPort(s.k, e, s.k.envs[e].port.(status := status)), s.phase, s.sent, s.got)
  }

  function Do(s: Sys, a: Action): Sys
  {
    match a
    case Run(e) => if e in s.k.envs then SetStatusOf(s, e, Running) else s
    case Preempt(e) => if e in s.k.envs then SetStatusOf(s, e, Runnable) else s
    case Send(e, to, value, srcva, perm, tables) =>
      if e !in s.k.envs then s
      else
        var o := SysIpcTrySend(s.k, e, to, value, srcva, perm, tables);
        var d := if to == 0 then e else to;
        if o.Done? then Sys(o.s, s.phase, s.sent[d := History(s.sent, d) + [Msg(e, value)]], s.got) else s
    case Recv(e, dstva) =>
      if e !in s.k.envs then s
      else
        var o := SysIpcRecv(s.k, e, dstva);
        if o.Done? then Sys(o.s, s.phase[e := Called], s.sent, s.got) else s
    case LoadFrom(e) =>
      if e in s.k.envs then Sys(s.k, s.phase[e := Loaded(s.k.envs[e].port.from)], s.sent, s.got) else s
    case LoadValue(e) =>
      if e in s.k.envs && e in s.phase && s.phase[e].Loaded? then
        var m := Msg(s.phase[e].from, s.k.envs[e].port.value);
        Sys(s.k, s.phase[e := Outside], s.sent, s.got[e := History(s.got, e) + [m]])
      else s
    case SetStatus(e, target, status) => if e in s.k.envs then With(s, SysEnvSetStatus(s.k, e, target, status)) else s
    case Exofork(e, child, stale) =>
      var t := With(s, SysExofork(s.k, e, Some(child), stale, true));
      Sys(t.k, t.phase[child := Outside], t.sent, t.got)
    case Destroy(e) => Sys(EnvFree(s.k, e), s.phase, s.sent, s.got)
    case Other(k) => Sys(k, s.phase, s.sent, s.got)
  }

  // ---------- the invariant ----------

  /** What is sent but not yet returned, given where the receiver is. */
  predicate EnvOk(port: Port, phase: Phase, sent: seq<Msg>, got: seq<Msg>)
  {
    && (port.recving ==> port.status == NotRunnable && port.from == 0 && phase == Called)
    && match phase
       case Outside => sent == got
       case Called => if port.recving then sent == got else port.from != 0 && sent == got + [Msg(port.from, port.value)]
       case Loaded(from) => from == port.from && from != 0 && sent == got + [Msg(port.from, port.value)]
  }

  /** At most one message is unread, and results come in the order of the sends. */
  predicate InOrder(sent: seq<Msg>, got: seq<Msg>) { got <= sent && |sent| <= |got| + 1 }

  ghost predicate Inv(s: Sys)
  {
    && 0 !in s.k.envs && 0 !in s.phase && Below(s.k)
    && (forall e :: e in s.k.envs ==> e in s.phase)
    && (forall e :: e in s.k.envs ==> EnvOk(s.k.envs[e].port, s.phase[e], History(s.sent, e), History(s.got, e)))
    && (forall e :: InOrder(History(s.sent, e), History(s.got, e)))
    && (forall e :: e !in s.phase ==> History(s.sent, e) == [] && History(s.got, e) == [])
  }

  lemma KeepSend(s: Sys, a: Action)
    requires Inv(s) && a.Send? && Enabled(s, a) && Spares(s, a)
    ensures Inv(Do(s, a))
  {
    if SysIpcTrySend(s.k, a.e, a.to, a.value, a.srcva, a.perm, a.tables).Done? {
      assert Below(Do(s, a).k) by { SendBelow(s.k, a.e, a.to, a.value, a.srcva, a.perm, a.tables); }
      var d := if a.to == 0 then a.e else a.to;
      assert EnvOk(s.k.envs[d].port, s.phase[d], History(s.sent, d), History(s.got, d));
    }
  }

  lemma KeepLoad(s: Sys, a: Action)
    requires Inv(s) && (a.LoadFrom? || a.LoadValue?) && Enabled(s, a)
    ensures Inv(Do(s, a))
  {
  }

  lemma KeepRecv(s: Sys, a: Action)
    requires Inv(s) && a.Recv? && Enabled(s, a)
    ensures Inv(Do(s, a))
  {
  }

  lemma KeepStatus(s: Sys, a: Action)
    requires Inv(s) && (a.Run? || a.Preempt? || a.SetStatus?) && Enabled(s, a) && Spares(s, a)
    ensures Inv(Do(s, a))
  {
  }

  lemma KeepEnvs(s: Sys, a: Action)
    requires Inv(s) && (a.Exofork? || a.Destroy? || a.Other?) && Enabled(s, a)
    ensures Inv(Do(s, a))
  {
  }

  // ---------- whole runs ----------

  /** A run in which nobody wakes a blocked receiver or sends a page to it at or above UTOP. */
  ghost predicate Legal(s: Sys, acts: seq<Action>)
    decreases |acts|
  {
    acts == [] || (Enabled(s, acts[0]) && Spares(s, acts[0]) && Legal(Do(s, acts[0]), acts[1..]))
  }

  function Exec(s: Sys, acts: seq<Action>): Sys
    decreases |acts|
  {
    if acts == [] then s else Exec(Do(s, acts[0]), acts[1..])
  }

  /** Before any message. */
  ghost predicate Init(s: Sys)
  {
    && s.phase.Keys == s.k.envs.Keys && 0 !in s.k.envs && Below(s.k) && s.sent == map[] && s.got == map[]
    && forall e :: e in s.k.envs ==> s.phase[e] == Outside && !s.k.envs[e].port.recving
  }

  lemma {:induction false} InvAlong(s: Sys, acts: seq<Action>)
    requires Inv(s) && Legal(s, acts)
    ensures Inv(Exec(s, acts))
    decreases |acts|
  {
    if acts != [] {
      var a := acts[0];
      match a {
        case Send(_, _, _, _, _, _) => KeepSend(s, a);
        case Recv(_, _) => KeepRecv(s, a);
        case LoadFrom(_) => KeepLoad(s, a);
        case LoadValue(_) => KeepLoad(s, a);
        case Run(_) => KeepStatus(s, a);
        case Preempt(_) => KeepStatus(s, a);
        case SetStatus(_, _, _) => KeepStatus(s, a);
        case Exofork(_, _, _) => KeepEnvs(s, a);
        case Destroy(_) => KeepEnvs(s, a);
        case Other(_) => KeepEnvs(s, a);
      }
      InvAlong(Do(s, a), acts[1..]);
    }
  }

  /** Exactly once, in order: in every run, what each ipc_recv loop has returned is its successful sends in order, but
      for at most one not yet read; and an environment marked receiving is not runnable and has env_ipc_from == 0. */
  lemma ExactlyOnce(s: Sys, acts: seq<Action>)
    requires Init(s) && Legal(s, acts)
    ensures var t := Exec(s, acts);
      && (forall e :: InOrder(History(t.sent, e), History(t.got, e)))
      && (forall e :: e in t.k.envs && t.k.envs[e].port.recving ==>
            t.k.envs[e].port.status == NotRunnable && t.k.envs[e].port.from == 0
            && History(t.sent, e) == History(t.got, e))
      && (forall e :: e in t.k.envs && InPhase(t, e, Outside) ==> History(t.sent, e) == History(t.got, e))
  {
    InvAlong(s, acts);
  }

  /** While a receiver holds an unread message, every send to it fails and changes nothing. */
  lemma NoOverwrite(s: Sys, a: Action)
    requires Inv(s) && a.Send? && Enabled(s, a)
    requires var d := if a.to == 0 then a.e else a.to; History(s.sent, d) != History(s.got, d)
    ensures Do(s, a) == s
    ensures a.to in s.k.envs ==> SysIpcTrySend(s.k, a.e, a.to, a.value, a.srcva, a.perm, a.tables) == Fail(E_IPC_NOT_RECV)
  {
  }

  /** A delivered message can be picked up: after a send that goes through, its receiver can run, and comes out of ipc_recv
      with everything that was ever sent to it, this message last. */
  lemma DeliveredIsReceived(s: Sys, a: Action)
    requires Inv(s) && a.Send? && Enabled(s, a) && Spares(s, a)
    requires SysIpcTrySend(s.k, a.e, a.to, a.value, a.srcva, a.perm, a.tables).Done?
    ensures var d, t := a.to, Do(s, a);
      && Legal(t, [Run(d), LoadFrom(d), LoadValue(d)])
      && var u := Exec(t, [Run(d), LoadFrom(d), LoadValue(d)]);
         && Inv(u) && IsRunning(u, d) && InPhase(u, d, Outside)
         && History(u.got, d) == History(u.sent, d) == History(s.sent, d) + [Msg(a.e, a.value)]
  {
    var d, t := a.to, Do(s, a);
    assert a.to != 0 by { assert EnvOk(s.k.envs[a.e].port, s.phase[a.e], History(s.sent, a.e), History(s.got, a.e)); }
    assert EnvOk(s.k.envs[d].port, s.phase[d], History(s.sent, d), History(s.got, d));
    KeepSend(s, a);
    PicksUp(t, d);
  }

  lemma PicksUp(s: Sys, d: EnvId)
    requires Inv(s) && d in s.k.envs && InPhase(s, d, Called) && s.k.envs[d].port.status == Runnable
    ensures Legal(s, [Run(d), LoadFrom(d), LoadValue(d)])
    ensures var u := Exec(s, [Run(d), LoadFrom(d), LoadValue(d)]);
      && Inv(u) && IsRunning(u, d) && InPhase(u, d, Outside)
      && History(u.got, d) == History(u.sent, d) && u.sent == s.sent
  {
    var s1 := Do(s, Run(d));
    var s2 := Do(s1, LoadFrom(d));
    KeepStatus(s, Run(d));
    KeepLoad(s1, LoadFrom(d));
    KeepLoad(s2, LoadValue(d));
    RunThree(s, Run(d), LoadFrom(d), LoadValue(d));
    var u := Do(s2, LoadValue(d));
    assert EnvOk(u.k.envs[d].port, u.phase[d], History(u.sent, d), History(u.got, d));
  }

  lemma RunThree(s: Sys, a: Action, b: Action, c: Action)
    requires Enabled(s, a) && Spares(s, a) && Enabled(Do(s, a), b) && Spares(Do(s, a), b)
    requires Enabled(Do(Do(s, a), b), c) && Spares(Do(Do(s, a), b), c)
    ensures Legal(s, [a, b, c]) && Exec(s, [a, b, c]) == Do(Do(Do(s, a), b), c)
  {
    var t, u := Do(s, a), Do(Do(s, a), b);
    assert [a, b, c][1..] == [b, c] && [b, c][1..] == [c] && [c][1..] == [];
    assert Legal(Do(u, c), []) && Legal(u, [c]) && Legal(t, [b, c]);
    assert Exec(u, [c]) == Do(u, c) && Exec(t, [b, c]) == Exec(u, [c]);
  }

  /** And a call of ipc_recv is answered by the next send. */
  lemma Rendezvous(s: Sys, e: EnvId, x: EnvId, value: int)
    requires Inv(s) && e != x && IsRunning(s, e) && InPhase(s, e, Outside) && IsRunning(s, x) && InPhase(s, x, Outside)
    ensures var t := Do(s, Recv(e, 0));
      && Enabled(t, Send(x, e, value, UTOP, {}, false))
      && SysIpcTrySend(t.k, x, e, value, UTOP, {}, false).Done? && !IsRunning(t, e)
  {
    assert Aligned(0);
  }

  /** The proviso is needed, in every reachable state: if anyone wakes a blocked receiver, its ipc_recv returns a
      message nobody sent. */
  lemma ForcedWakeBreaksIt(s: Sys, e: EnvId, r: EnvId)
    requires Inv(s) && Enabled(s, SetStatus(e, r, Runnable))
    requires r in s.k.envs && s.k.envs[r].port.recving && SysEnvSetStatus(s.k, e, r, Runnable).Done?
    ensures Enabled(Do(s, SetStatus(e, r, Runnable)), Run(r))
    ensures var t := Exec(s, [SetStatus(e, r, Runnable), Run(r), LoadFrom(r), LoadValue(r)]);
      && History(t.got, r) == History(s.got, r) + [Msg(0, s.k.envs[r].port.value)]
      && History(t.sent, r) == History(s.sent, r) == History(s.got, r)
      && !InOrder(History(t.sent, r), History(t.got, r))
  {
    var a := SetStatus(e, r, Runnable);
    WokenEmpty(s, e, r);
    var s1 := Do(s, a);
    RunFour(s, a, Run(r), LoadFrom(r), LoadValue(r));
    ReadsGarbage(s1, r);
  }

  lemma RunFour(s: Sys, a: Action, b: Action, c: Action, d: Action)
    ensures Exec(s, [a, b, c, d]) == Do(Do(Do(Do(s, a), b), c), d)
  {
    assert [a, b, c, d][1..] == [b, c, d] && [b, c, d][1..] == [c, d] && [c, d][1..] == [d];
    assert Exec(s, [a, b, c, d]) == Exec(Do(s, a), [b, c, d]);
    assert Exec(Do(s, a), [b, c, d]) == Exec(Do(Do(s, a), b), [c, d]);
    assert Exec(Do(Do(s, a), b), [c, d]) == Exec(Do(Do(Do(s, a), b), c), [d]);
    assert forall t :: Exec(t, [d]) == Do(t, d);
  }

  lemma WokenEmpty(s: Sys, e: EnvId, r: EnvId)
    requires Inv(s) && Enabled(s, SetStatus(e, r, Runnable))
    requires r in s.k.envs && s.k.envs[r].port.recving && SysEnvSetStatus(s.k, e, r, Runnable).Done?
    ensures var t := Do(s, SetStatus(e, r, Runnable));
      && r in t.k.envs && t.k.envs[r].port == s.k.envs[r].port.(status := Runnable) && t.k.envs[r].port.from == 0
      && t.sent == s.sent && t.got == s.got && t.phase == s.phase && InPhase(s, r, Called)
      && History(s.sent, r) == History(s.got, r)
  {
    assert EnvOk(s.k.envs[r].port, s.phase[r], History(s.sent, r), History(s.got, r));
  }

  lemma ReadsGarbage(s: Sys, r: EnvId)
    requires r in s.k.envs && InPhase(s, r, Called) && s.k.envs[r].port.from == 0 && History(s.sent, r) == History(s.got, r)
    ensures var t := Do(Do(Do(s, Run(r)), LoadFrom(r)), LoadValue(r));
      && History(t.got, r) == History(s.got, r) + [Msg(0, s.k.envs[r].port.value)]
      && t.sent == s.sent
  {
  }
}
