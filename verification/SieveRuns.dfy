/** The sieve does print: from its start there is a run to any number of primes. */
module SieveRuns {
  import opened Types
  import opened Layout
  import opened Ipc
  import opened Kernel
  import opened IpcRuns
  import opened Primes
  import opened Sieve

  // ---------- reachability ----------

  ghost predicate Reach(s: Chain, t: Chain) { exists steps :: LegalSteps(s, steps) && Sieve.Run(s, steps) == t }

  lemma ReachSelf(s: Chain)
    ensures Reach(s, s)
  {
    assert LegalSteps(s, []) && Sieve.Run(s, []) == s;
  }

  lemma ReachStep(s: Chain, st: Step)
    requires WellFormed(s) && StepEnabled(s, st)
    ensures Reach(s, DoStep(s, st))
  {
    assert [st][1..] == [];
    assert LegalSteps(DoStep(s, st), []) && Sieve.Run(DoStep(s, st), []) == DoStep(s, st);
    assert LegalSteps(s, [st]) && Sieve.Run(s, [st]) == DoStep(s, st);
  }

  lemma {:induction false} Append(s: Chain, first: seq<Step>, second: seq<Step>)
    requires LegalSteps(s, first) && LegalSteps(Sieve.Run(s, first), second)
    ensures LegalSteps(s, first + second) && Sieve.Run(s, first + second) == Sieve.Run(Sieve.Run(s, first), second)
    decreases |first|
  {
    if first == [] {
      assert first + second == second;
    } else {
      assert (first + second)[1..] == first[1..] + second;
      Append(DoStep(s, first[0]), first[1..], second);
    }
  }

  lemma ReachTrans(s: Chain, t: Chain, u: Chain)
    requires Reach(s, t) && Reach(t, u)
    ensures Reach(s, u)
  {
    var first :| LegalSteps(s, first) && Sieve.Run(s, first) == t;
    var second :| LegalSteps(t, second) && Sieve.Run(t, second) == u;
    Append(s, first, second);
  }

  lemma ReachOneMore(s: Chain, t: Chain, st: Step)
    requires Reach(s, t) && WellFormed(t) && StepEnabled(t, st)
    ensures Reach(s, DoStep(t, st))
  {
    ReachStep(t, st);
    ReachTrans(s, t, DoStep(t, st));
  }

  /** Some run of the sieve comes to s. */
  ghost predicate Reachable(s: Chain) { exists s0 :: InitSieve(s0) && Reach(s0, s) }

  lemma ReachableInv(s: Chain)
    requires Reachable(s)
    ensures SieveInv(s)
  {
    var s0 :| InitSieve(s0) && Reach(s0, s);
    var steps :| LegalSteps(s0, steps) && Sieve.Run(s0, steps) == s;
    InitHolds(s0);
    SieveInvAlong(s0, steps);
  }

  lemma ReachableStep(s: Chain, st: Step)
    requires Reachable(s) && WellFormed(s) && StepEnabled(s, st)
    ensures Reachable(DoStep(s, st)) && WellFormed(DoStep(s, st))
  {
    var s0 :| InitSieve(s0) && Reach(s0, s);
    ReachOneMore(s0, s, st);
    ReachableInv(DoStep(s, st));
  }

  // ---------- a chain at rest ----------

  function PortOf(s: Chain, k: nat): Port
    requires WellFormed(s) && k < |s.ids|
  {
    s.sys.k.envs[s.ids[k]].port
  }

  /** Process k waits in ipc_recv for its next number, the last process for its first. */
  predicate Parked(s: Chain, k: nat)
    requires WellFormed(s) && k < |s.ids|
  {
    PortOf(s, k).recving && s.procs[k].pc == if k + 1 < |s.ids| then LoopCalled else TopCalled
  }

  /** umain is about to send, and all processes but those in busy wait. */
  ghost predicate AtRest(s: Chain, busy: set<nat>)
  {
    && Reachable(s) && WellFormed(s) && |s.ids| >= 2 && s.procs[0].pc == Feed && PortOf(s, 0).status == Running
    && forall k: nat :: 1 <= k < |s.ids| && k !in busy ==> Parked(s, k)
  }

  /** Only process k, and what is sent to its successor, moved. */
  ghost predicate Moved(s: Chain, t: Chain, k: nat)
    requires WellFormed(s) && WellFormed(t) && k < |s.ids|
  {
    && t.ids == s.ids && |t.procs| == |s.procs|
    && forall j: nat :: j < |s.ids| && j != k ==> t.procs[j] == s.procs[j] && PortOf(t, j) == PortOf(s, j)
  }

  lemma RestStays(s: Chain, t: Chain, busy: set<nat>, k: nat)
    requires AtRest(s, busy) && Reachable(t) && WellFormed(t) && 1 <= k < |s.ids| && k in busy && Moved(s, t, k)
    ensures AtRest(t, busy)
  {
    forall j: nat | 1 <= j < |t.ids| && j !in busy ensures Parked(t, j) { assert Parked(s, j); }
  }

  /** What the sieve's invariant says of process k. */
  lemma Facts(s: Chain, k: nat)
    requires Reachable(s) && WellFormed(s) && k < |s.ids|
    ensures ProcOk(s, k) && s.ids[k] != 0 && forall j: nat :: j < |s.ids| && j != k ==> s.ids[j] != s.ids[k]
    ensures EnvOk(PortOf(s, k), s.sys.phase[s.ids[k]], History(s.sys.sent, s.ids[k]), History(s.sys.got, s.ids[k]))
  {
    ReachableInv(s);
    assert ProcOk(s, k);
  }

  lemma Different(s: Chain, i: nat, j: nat)
    requires Reachable(s) && WellFormed(s) && i < |s.ids| && j < |s.ids| && i != j
    ensures s.ids[i] != s.ids[j]
  {
    ReachableInv(s);
  }

  // ---------- one process's steps ----------

  /** The scheduler runs a process that was woken. */
  lemma Wakes(s: Chain, busy: set<nat>, k: nat)
    requires AtRest(s, busy) && 1 <= k < |s.ids| && k in busy && PortOf(s, k).status == Runnable
    ensures var st := Sched(IpcRuns.Run(s.ids[k])); StepEnabled(s, st)
    ensures var t := DoStep(s, Sched(IpcRuns.Run(s.ids[k])));
      && AtRest(t, busy) && Moved(s, t, k) && t.procs == s.procs && t.log == s.log && t.sys.phase == s.sys.phase
      && PortOf(t, k) == PortOf(s, k).(status := Running)
  {
    var st := Sched(IpcRuns.Run(s.ids[k]));
    ReachableStep(s, st);
    var t := DoStep(s, st);
    Facts(s, k);
    RestStays(s, t, busy, k);
  }

  /** The next step of process k, where it forks nothing. */
  function Next(s: Chain, k: nat): Step
    requires WellFormed(s) && k < |s.ids|
  {
    Prog(k, 0, s.sys.k.envs[s.ids[k]])
  }

  ghost predicate Busy(s: Chain, busy: set<nat>, k: nat)
  {
    AtRest(s, busy) && 1 <= k < |s.ids| && k in busy && PortOf(s, k).status == Running
  }

  /** A step of process k that keeps to itself. */
  lemma OwnStep(s: Chain, busy: set<nat>, k: nat, t: Chain)
    requires Busy(s, busy, k) && StepEnabled(s, Next(s, k)) && t == DoStep(s, Next(s, k))
    requires s.procs[k].pc !in {FeedFork, Fork, FeedStart, Start, Feed, Sending}
    ensures AtRest(t, busy) && Moved(s, t, k)
  {
    ReachableStep(s, Next(s, k));
    Facts(s, k);
    RestStays(s, t, busy, k);
  }

  lemma ReadsFrom(s: Chain, busy: set<nat>, k: nat)
    requires Busy(s, busy, k) && s.procs[k].pc in {TopCalled, LoopCalled}
    ensures StepEnabled(s, Next(s, k))
    ensures var t := DoStep(s, Next(s, k));
      && Busy(t, busy, k) && Moved(s, t, k) && t.log == s.log && PortOf(t, k) == PortOf(s, k)
      && t.procs[k] == s.procs[k].(envid := PortOf(s, k).from, pc := if s.procs[k].pc == TopCalled then TopLoaded else LoopLoaded)
  {
    Facts(s, k);
    OwnStep(s, busy, k, DoStep(s, Next(s, k)));
  }

  lemma ReadsValue(s: Chain, busy: set<nat>, k: nat)
    requires Busy(s, busy, k) && s.procs[k].pc in {TopLoaded, LoopLoaded}
    ensures StepEnabled(s, Next(s, k))
    ensures var t, v := DoStep(s, Next(s, k)), PortOf(s, k).value;
      && Busy(t, busy, k) && Moved(s, t, k) && t.log == s.log && PortOf(t, k) == PortOf(s, k)
      && t.procs[k] == if s.procs[k].pc == TopLoaded then s.procs[k].(p := v, pc := Print) else s.procs[k].(i := v, pc := Test)
  {
    assert s.ids[k] in s.sys.phase && s.sys.phase[s.ids[k]].Loaded? by { Facts(s, k); }
    OwnStep(s, busy, k, DoStep(s, Next(s, k)));
  }

  /** A woken process comes out of ipc_recv with the value it was sent. */
  lemma Receives(s: Chain, busy: set<nat>, k: nat) returns (t: Chain)
    requires AtRest(s, busy) && 1 <= k < |s.ids| && k in busy && PortOf(s, k).status == Runnable
    requires s.procs[k].pc in {TopCalled, LoopCalled}
    ensures Reach(s, t) && Busy(t, busy, k) && Moved(s, t, k) && t.log == s.log
    ensures var v := PortOf(s, k).value;
      if s.procs[k].pc == TopCalled then t.procs[k].pc == Print && t.procs[k].p == v
      else t.procs[k].pc == Test && t.procs[k].i == v && t.procs[k].p == s.procs[k].p
  {
    var st := Sched(IpcRuns.Run(s.ids[k]));
    Wakes(s, busy, k);
    ReachStep(s, st);
    var s1 := DoStep(s, st);
    ReadsFrom(s1, busy, k);
    ReachOneMore(s, s1, Next(s1, k));
    var s2 := DoStep(s1, Next(s1, k));
    ReadsValue(s2, busy, k);
    ReachOneMore(s, s2, Next(s2, k));
    t := DoStep(s2, Next(s2, k));
  }

  lemma Tests(s: Chain, busy: set<nat>, k: nat)
    requires Busy(s, busy, k) && s.procs[k].pc == Test
    ensures StepEnabled(s, Next(s, k)) && s.procs[k].p >= 2
    ensures var t := DoStep(s, Next(s, k));
      && Busy(t, busy, k) && Moved(s, t, k) && t.log == s.log
      && t.procs[k] == s.procs[k].(pc := if Divides(s.procs[k].p, s.procs[k].i) then Loop else Sending)
  {
    Facts(s, k);
    OwnStep(s, busy, k, DoStep(s, Next(s, k)));
  }

  /** Back to ipc_recv. */
  lemma Parks(s: Chain, busy: set<nat>, k: nat)
    requires Busy(s, busy, k) && s.procs[k].pc in {Top, Loop}
    ensures StepEnabled(s, Next(s, k))
    ensures var t := DoStep(s, Next(s, k)); AtRest(t, busy - {k}) && Moved(s, t, k) && t.log == s.log
    ensures DoStep(s, Next(s, k)).procs[k].p == s.procs[k].p
  {
    var t := DoStep(s, Next(s, k));
    Facts(s, k);
    OwnStep(s, busy, k, t);
    assert Aligned(0);
    assert Parked(t, k);
    forall j: nat | 1 <= j < |t.ids| && j !in busy - {k} ensures Parked(t, j) {}
  }

  /** A send to a parked successor goes through, and wakes it with the number. */
  lemma SendsOn(s: Chain, busy: set<nat>, k: nat)
    requires AtRest(s, busy) && k + 1 < |s.ids| && PortOf(s, k).status == Running && s.procs[k].pc in {Feed, Sending}
    requires (k == 0 || k in busy) && Parked(s, k + 1)
    ensures StepEnabled(s, Next(s, k))
    ensures var t := DoStep(s, Next(s, k));
      && AtRest(t, busy + {k + 1}) && t.ids == s.ids && |t.procs| == |s.procs| && t.log == s.log
      && (forall j: nat :: j < |s.ids| && j != k ==> t.procs[j] == s.procs[j])
      && t.procs[k] == (if k == 0 then s.procs[0].(i := s.procs[0].i + 1) else s.procs[k].(pc := Loop))
      && PortOf(t, k) == PortOf(s, k)
      && PortOf(t, k + 1).status == Runnable && PortOf(t, k + 1).value == s.procs[k].i
  {
    var t, d := DoStep(s, Next(s, k)), s.ids[k + 1];
    SendPasses(s, k);
    ReachableStep(s, Next(s, k));
    forall j: nat | j < |s.ids| && j != k + 1 ensures s.ids[j] != d { Different(s, j, k + 1); }
    forall j: nat | 1 <= j < |t.ids| && j !in busy + {k + 1} ensures Parked(t, j) { assert Parked(s, j); }
  }

  lemma AcceptedSend(k: State, e: EnvId, d: EnvId, v: int)
    requires e in k.envs && d in k.envs && d != 0 && Accepts(k.envs[d].port)
    ensures SysIpcTrySend(k, e, d, v, UTOP, {}, false) == Done(SetPort(k, d, Delivered(k.envs[d].port, e, v)))
  {
  }

  /** What a process about to send knows of its successor. */
  lemma SenderFacts(s: Chain, k: nat)
    requires Reachable(s) && WellFormed(s) && k + 1 < |s.ids| && s.procs[k].pc in {Feed, Sending} && Parked(s, k + 1)
    ensures s.procs[k].id == s.ids[k + 1] != 0 && Accepts(PortOf(s, k + 1)) && (k == 0 <==> s.procs[k].pc == Feed)
    ensures InPhase(s.sys, s.ids[k], Outside)
  {
    LinkFacts(s, k);
    PortFacts(s, k + 1);
  }

  lemma LinkFacts(s: Chain, k: nat)
    requires Reachable(s) && WellFormed(s) && k + 1 < |s.ids| && s.procs[k].pc in {Feed, Sending}
    ensures s.procs[k].id == s.ids[k + 1] && (k == 0 <==> s.procs[k].pc == Feed) && InPhase(s.sys, s.ids[k], Outside)
  {
    ReachableInv(s);
    assert ProcOk(s, k);
  }

  lemma PortFacts(s: Chain, k: nat)
    requires Reachable(s) && WellFormed(s) && k < |s.ids|
    ensures s.ids[k] != 0 && (PortOf(s, k).recving ==> Accepts(PortOf(s, k)))
  {
    ReachableInv(s);
    var e := s.ids[k];
    assert EnvOk(PortOf(s, k), s.sys.phase[e], History(s.sys.sent, e), History(s.sys.got, e));
  }

  /** The send itself: the successor accepts. */
  lemma SendPasses(s: Chain, k: nat)
    requires Reachable(s) && WellFormed(s) && k + 1 < |s.ids| && s.procs[k].pc in {Feed, Sending}
    requires PortOf(s, k).status == Running && Parked(s, k + 1)
    ensures StepEnabled(s, Next(s, k))
    ensures var t, d, e := DoStep(s, Next(s, k)), s.ids[k + 1], s.ids[k];
      && t.ids == s.ids && t.log == s.log
      && t.procs == s.procs[k := if k == 0 then s.procs[0].(i := s.procs[0].i + 1) else s.procs[k].(pc := Loop)]
      && t.sys.k == SetPort(s.sys.k, d, Delivered(PortOf(s, k + 1), e, s.procs[k].i))
  {
    SenderFacts(s, k);
    AcceptedSend(s.sys.k, s.ids[k], s.ids[k + 1], s.procs[k].i);
  }

  // ---------- one number's way down the chain ----------

  /** Process k has just been sent v. */
  ghost predicate Sent(s: Chain, k: nat, v: int)
  {
    && AtRest(s, {k}) && 1 <= k < |s.ids| && PortOf(s, k).status == Runnable && PortOf(s, k).value == v
    && s.procs[k].pc == if k + 1 < |s.ids| then LoopCalled else TopCalled
  }

  /** From s to t the chain stays what it is: who is in it, what they hold, and how far umain is. */
  predicate SameChain(s: Chain, t: Chain)
  {
    && t.ids == s.ids && |t.procs| == |s.procs| && |s.procs| > 0 && t.procs[0] == s.procs[0]
    && forall j :: 1 <= j < |s.procs| ==> t.procs[j].p == s.procs[j].p
  }

  /** A process that holds a prime takes the number, and drops it or passes it on. */
  lemma Filters(s: Chain, k: nat, v: int) returns (t: Chain)
    requires Sent(s, k, v) && k + 1 < |s.ids|
    ensures Reach(s, t) && SameChain(s, t) && t.log == s.log && s.procs[k].p >= 2
    ensures if Divides(s.procs[k].p, v) then AtRest(t, {}) else Sent(t, k + 1, v)
  {
    var s1 := Receives(s, {k}, k);
    Tests(s1, {k}, k);
    ReachOneMore(s, s1, Next(s1, k));
    var s2 := DoStep(s1, Next(s1, k));
    if Divides(s.procs[k].p, v) {
      Parks(s2, {k}, k);
      ReachOneMore(s, s2, Next(s2, k));
      t := DoStep(s2, Next(s2, k));
      assert {k} - {k} == {};
    } else {
      assert Parked(s2, k + 1);
      SendsOn(s2, {k}, k);
      ReachOneMore(s, s2, Next(s2, k));
      var s3 := DoStep(s2, Next(s2, k));
      assert Busy(s3, {k} + {k + 1}, k);
      Parks(s3, {k} + {k + 1}, k);
      ReachOneMore(s, s3, Next(s3, k));
      t := DoStep(s3, Next(s3, k));
      assert {k} + {k + 1} - {k} == {k + 1};
    }
  }

  /** The last process prints. */
  lemma Prints(s: Chain, k: nat)
    requires Busy(s, {k}, k) && s.procs[k].pc == Print
    ensures StepEnabled(s, Next(s, k))
    ensures var t := DoStep(s, Next(s, k));
      Busy(t, {k}, k) && Moved(s, t, k) && t.log == s.log + [s.procs[k].p] && t.procs[k] == s.procs[k].(pc := Fork)
  {
    OwnStep(s, {k}, k, DoStep(s, Next(s, k)));
  }

  lemma FreshId(ids: set<EnvId>) returns (c: EnvId)
    ensures c != 0 && c !in ids
  {
    c := Above(ids);
  }

  lemma {:induction false} Above(ids: set<EnvId>) returns (c: EnvId)
    ensures c != 0 && forall x :: x in ids ==> x < c
    decreases |ids|
  {
    c := 1;
    if ids != {} {
      var x :| x in ids;
      var d := Above(ids - {x});
      c := if d > x then d else x + 1;
      assert forall y :: y in ids ==> y == x || y in ids - {x};
    }
  }

  /** The fork's first half: the chain is one longer, its new end not yet running. */
  lemma Forks(s: Chain, k: nat, child: EnvId)
    requires Reachable(s) && WellFormed(s) && k < |s.ids| && PortOf(s, k).status == Running
    requires s.procs[k].pc in {FeedFork, Fork} && child != 0 && child !in s.sys.phase
    ensures var st := Prog(k, child, s.sys.k.envs[s.ids[k]]); StepEnabled(s, st) && k + 1 == |s.ids|
    ensures var t := DoStep(s, Prog(k, child, s.sys.k.envs[s.ids[k]]));
      && Reachable(t) && WellFormed(t) && t.ids == s.ids + [child] && |t.procs| == k + 2 && t.log == s.log
      && (forall j: nat :: j < k ==> t.procs[j] == s.procs[j])
      && (forall j: nat :: j <= k ==> PortOf(t, j) == PortOf(s, j))
      && t.procs[k] == s.procs[k].(id := child, pc := AfterFork(s.procs[k].pc)) && t.procs[k + 1].pc == Top
  {
    var st := Prog(k, child, s.sys.k.envs[s.ids[k]]);
    Facts(s, k);
    ReachableStep(s, st);
    ReachableInv(s);
    ForkEffect(s.sys, s.ids[k], child, s.sys.k.envs[s.ids[k]]);
    forall j: nat | j <= k ensures s.ids[j] != child { Facts(s, j); }
  }

  /** And its second: the child may run. */
  lemma Starts(s: Chain, k: nat)
    requires Reachable(s) && WellFormed(s) && k + 1 < |s.ids| && PortOf(s, k).status == Running
    requires s.procs[k].pc in {FeedStart, Start}
    ensures StepEnabled(s, Next(s, k))
    ensures var t := DoStep(s, Next(s, k));
      && Reachable(t) && WellFormed(t) && t.ids == s.ids && |t.procs| == |s.procs| && t.log == s.log
      && (forall j: nat :: j < |s.ids| && j != k ==> t.procs[j] == s.procs[j])
      && (forall j: nat :: j < |s.ids| && j != k + 1 ==> PortOf(t, j) == PortOf(s, j))
      && t.procs[k] == (if s.procs[k].pc == FeedStart then s.procs[k].(i := 2, pc := Feed) else s.procs[k].(pc := Loop))
      && PortOf(t, k + 1).status == Runnable && t.procs[k + 1].pc == Top
  {
    StartPasses(s, k);
    ReachableStep(s, Next(s, k));
    forall j: nat | j < |s.ids| && j != k + 1 ensures s.ids[j] != s.ids[k + 1] { Different(s, j, k + 1); }
  }

  lemma StartPasses(s: Chain, k: nat)
    requires Reachable(s) && WellFormed(s) && k + 1 < |s.ids| && PortOf(s, k).status == Running
    requires s.procs[k].pc in {FeedStart, Start}
    ensures StepEnabled(s, Next(s, k)) && s.procs[k + 1].pc == Top
    ensures var t, d := DoStep(s, Next(s, k)), s.ids[k + 1];
      && t.ids == s.ids && t.log == s.log
      && t.procs == s.procs[k := if s.procs[k].pc == FeedStart then s.procs[k].(i := 2, pc := Feed) else s.procs[k].(pc := Loop)]
      && t.sys.k == SetPort(s.sys.k, d, PortOf(s, k + 1).(status := Runnable))
  {
    StarterFacts(s, k);
    AcceptedStart(s.sys.k, s.ids[k], s.ids[k + 1]);
  }

  lemma StarterFacts(s: Chain, k: nat)
    requires Reachable(s) && WellFormed(s) && k + 1 < |s.ids| && s.procs[k].pc in {FeedStart, Start}
    ensures s.procs[k].id == s.ids[k + 1] != 0 && s.sys.k.envs[s.ids[k + 1]].parent == s.ids[k]
    ensures s.procs[k + 1].pc == Top && (k == 0 <==> s.procs[k].pc == FeedStart)
  {
    ReachableInv(s);
    assert ProcOk(s, k);
  }

  lemma AcceptedStart(k: State, e: EnvId, d: EnvId)
    requires e in k.envs && d in k.envs && d != 0 && k.envs[d].parent == e
    ensures SysEnvSetStatus(k, e, d, Runnable) == Done(SetPort(k, d, k.envs[d].port.(status := Runnable)))
  {
  }

  /** fork by process k, last in the chain, running until both it and its child can go on. */
  lemma Splits(s: Chain, k: nat) returns (t: Chain)
    requires Reachable(s) && WellFormed(s) && k + 1 == |s.ids| && PortOf(s, k).status == Running
    requires s.procs[k].pc in {FeedFork, Fork}
    ensures Reach(s, t) && Reachable(t) && WellFormed(t) && |t.ids| == k + 2 && |t.procs| == k + 2 && t.log == s.log
    ensures (forall j: nat :: j < k ==> t.procs[j] == s.procs[j] && PortOf(t, j) == PortOf(s, j)) && PortOf(t, k) == PortOf(s, k)
    ensures t.procs[k].pc == (if s.procs[k].pc == FeedFork then Feed else Loop)
    ensures s.procs[k].pc == FeedFork ==> t.procs[k].i == 2
    ensures s.procs[k].pc == Fork ==> t.procs[k].p == s.procs[k].p
    ensures t.procs[k + 1].pc == Top && PortOf(t, k + 1).status == Runnable
  {
    var child := FreshId(s.sys.phase.Keys);
    var st := Prog(k, child, s.sys.k.envs[s.ids[k]]);
    Forks(s, k, child);
    ReachStep(s, st);
    var s1 := DoStep(s, st);
    Starts(s1, k);
    ReachOneMore(s, s1, Next(s1, k));
    t := DoStep(s1, Next(s1, k));
  }

  /** A new process runs up to its ipc_recv. */
  lemma Arrives(s: Chain, k: nat) returns (t: Chain)
    requires AtRest(s, {k}) && 1 <= k && k + 1 == |s.ids| && s.procs[k].pc == Top && PortOf(s, k).status == Runnable
    ensures Reach(s, t) && AtRest(t, {}) && Moved(s, t, k) && t.log == s.log
  {
    var st := Sched(IpcRuns.Run(s.ids[k]));
    Wakes(s, {k}, k);
    ReachStep(s, st);
    var s1 := DoStep(s, st);
    Parks(s1, {k}, k);
    ReachOneMore(s, s1, Next(s1, k));
    t := DoStep(s1, Next(s1, k));
    assert {k} - {k} == {};
  }

  /** A number that comes to the last process is printed, and the chain grows by one. */
  lemma Extends(s: Chain, k: nat, v: int) returns (t: Chain)
    requires Sent(s, k, v) && k + 1 == |s.ids|
    ensures Reach(s, t) && AtRest(t, {}) && t.log == s.log + [v] && t.procs[0] == s.procs[0]
  {
    var s1 := Receives(s, {k}, k);
    Prints(s1, k);
    ReachOneMore(s, s1, Next(s1, k));
    var s2 := DoStep(s1, Next(s1, k));
    t := Reproduces(s2, k);
    ReachTrans(s, s2, t);
  }

  /** From its fork on, the process and its child come to rest. */
  lemma Reproduces(s: Chain, k: nat) returns (t: Chain)
    requires Busy(s, {k}, k) && s.procs[k].pc == Fork && k + 1 == |s.ids|
    ensures Reach(s, t) && AtRest(t, {}) && t.log == s.log && t.procs[0] == s.procs[0]
  {
    var s3 := Splits(s, k);
    forall j: nat | 1 <= j < |s3.ids| && j !in {k, k + 1} ensures Parked(s3, j) { assert Parked(s, j); }
    Parks(s3, {k, k + 1}, k);
    ReachOneMore(s, s3, Next(s3, k));
    var s4 := DoStep(s3, Next(s3, k));
    assert {k, k + 1} - {k} == {k + 1};
    t := Arrives(s4, k + 1);
    ReachTrans(s, s4, t);
  }

  /** The number reaches the end if no process on its way divides it. */
  lemma {:induction false} Travels(s: Chain, k: nat, v: int) returns (t: Chain)
    requires Sent(s, k, v)
    ensures Reach(s, t) && AtRest(t, {}) && t.procs[0] == s.procs[0] && (t.log == s.log || t.log == s.log + [v])
    ensures (forall j :: k <= j && j + 1 < |s.ids| ==> s.procs[j].p > 0 && !Divides(s.procs[j].p, v)) ==> t.log == s.log + [v]
    decreases |s.ids| - k
  {
    if k + 1 == |s.ids| {
      t := Extends(s, k, v);
    } else {
      var u := Filters(s, k, v);
      if Divides(s.procs[k].p, v) {
        t := u;
      } else {
        t := Travels(u, k + 1, v);
        ReachTrans(s, u, t);
      }
    }
  }

  /** umain sends its next number down the chain. */
  lemma Feeds(s: Chain) returns (t: Chain)
    requires AtRest(s, {})
    ensures Reach(s, t) && AtRest(t, {}) && t.procs[0].i == s.procs[0].i + 1
    ensures t.log == s.log || t.log == s.log + [s.procs[0].i]
    ensures Moduli(s.log) && (Survives(s.log, s.procs[0].i) ==> t.log == s.log + [s.procs[0].i])
  {
    var v := s.procs[0].i;
    assert Parked(s, 1);
    SendsOn(s, {}, 0);
    ReachStep(s, Next(s, 0));
    var u := DoStep(s, Next(s, 0));
    assert {} + {1} == {1};
    assert Sent(u, 1, v);
    t := Travels(u, 1, v);
    ReachTrans(s, u, t);
    RestLog(s);
    if Survives(s.log, v) {
      forall j | 1 <= j && j + 1 < |u.ids| ensures u.procs[j].p > 0 && !Divides(u.procs[j].p, v) {
        assert s.log[j - 1] == s.procs[j].p;
        assert !Divides(s.log[j - 1], v);
      }
    }
  }

  /** At rest, what all but the last process hold is the log. */
  lemma RestLog(s: Chain)
    requires AtRest(s, {})
    ensures |s.log| == |s.ids| - 2 && Moduli(s.log) && FirstPrimes(s.log) && s.procs[0].i >= 2
    ensures forall j :: 0 <= j < |s.log| ==> s.log[j] == s.procs[j + 1].p
  {
    ReachableInv(s);
    assert ProcOk(s, 0);
    assert Parked(s, |s.ids| - 1);
    LogIsHeld(s);
  }

  // ---------- there is always another prime ----------

  function Product(ps: seq<int>): int { if ps == [] then 1 else Product(ps[..|ps| - 1]) * ps[|ps| - 1] }

  lemma {:induction false} ProductMultiple(ps: seq<int>, j: nat) returns (m: int)
    requires Moduli(ps) && j < |ps|
    ensures Product(ps) == ps[j] * m
    decreases |ps|
  {
    var n := |ps| - 1;
    if j == n {
      m := Product(ps[..n]);
    } else {
      var r := ProductMultiple(ps[..n], j);
      m := r * ps[n];
      assert Product(ps) == ps[j] * r * ps[n] == ps[j] * m;
    }
  }

  lemma {:induction false} ProductPositive(ps: seq<int>)
    requires Moduli(ps)
    ensures Product(ps) >= 1
    decreases |ps|
  {
    if ps != [] {
      ProductPositive(ps[..|ps| - 1]);
      AtLeast(Product(ps[..|ps| - 1]), ps[|ps| - 1]);
    }
  }

  lemma AtLeast(a: int, b: int)
    requires a >= 1 && b >= 1
    ensures a * b >= a && a * b >= b
  {
  }

  lemma NotMultiple(p: int, m: int)
    requires p >= 2
    ensures !Divides(p, p * m + 1)
  {
    var n := p * m + 1;
    var q, r := n / p, n % p;
    assert n == p * q + r;
    assert r - 1 == p * (m - q) by { Distribute(p, m, q); }
    OneAbove(p, m - q, r);
  }

  lemma Distribute(p: int, m: int, q: int)
    ensures p * (m - q) == p * m - p * q
  {
  }

  lemma OneAbove(p: int, x: int, r: int)
    requires p >= 2 && 0 <= r < p && r - 1 == p * x
    ensures r == 1
  {
    assert x > 0 ==> p * x >= p;
    assert x < 0 ==> p * x <= -p;
  }

  /** Some number from i on passes all the filters. */
  lemma SomeSurvivor(ps: seq<int>, i: int) returns (n: int)
    requires Moduli(ps) && i >= 1
    ensures n >= i && Survives(ps, n)
  {
    ProductPositive(ps);
    AtLeast(Product(ps), i);
    n := Product(ps) * i + 1;
    forall j | 0 <= j < |ps| ensures !Divides(ps[j], n) {
      var m := ProductMultiple(ps, j);
      assert n == ps[j] * (m * i) + 1;
      NotMultiple(ps[j], m * i);
    }
  }

  // ---------- any number of primes ----------

  /** Feeding numbers on, one more prime is printed by the time a survivor is fed. */
  lemma {:induction false} FeedsUntil(s: Chain, n: int) returns (t: Chain)
    requires AtRest(s, {}) && Moduli(s.log) && Survives(s.log, n) && s.procs[0].i <= n
    ensures Reach(s, t) && AtRest(t, {}) && |t.log| == |s.log| + 1
    decreases n - s.procs[0].i
  {
    t := Feeds(s);
    if t.log == s.log {
      var u := FeedsUntil(t, n);
      ReachTrans(s, t, u);
      t := u;
    }
  }

  /** umain, once it runs, comes to rest with its first process. */
  lemma Begins(s: Chain) returns (t: Chain)
    requires InitSieve(s) && s.sys.k.envs[s.ids[0]].port.status == Running
    ensures Reach(s, t) && AtRest(t, {}) && t.log == []
  {
    ReachSelf(s);
    InitHolds(s);
    var s1 := Splits(s, 0);
    t := Arrives(s1, 1);
    ReachTrans(s, s1, t);
  }

  /** For every n there is a run of the sieve that prints n lines -- and then, as in every run, they are the first n primes. */
  lemma {:induction false} PrintsAnyNumber(s: Chain, n: nat) returns (t: Chain)
    requires InitSieve(s) && s.sys.k.envs[s.ids[0]].port.status == Running
    ensures Reach(s, t) && AtRest(t, {}) && |t.log| == n && FirstPrimes(t.log)
    decreases n
  {
    if n == 0 {
      t := Begins(s);
    } else {
      var u := PrintsAnyNumber(s, n - 1);
      RestLog(u);
      var m := SomeSurvivor(u.log, u.procs[0].i);
      t := FeedsUntil(u, m);
      ReachTrans(s, u, t);
    }
    RestLog(t);
  }
}
