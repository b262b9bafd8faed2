/** The transition system against the library: what an environment's own steps of fork and pgfault add up to when nothing
    else happens, and that they can always be taken. */
module CowLibrary {
  import opened Types
  import opened Layout
  import opened Ipc
  import opened Kernel
  import opened Cow
  import opened CowInvariant
  import opened CowRuns
  import Lib = ForkLib

  function Lookup(k: State, sl: Slot): Option<Pte> { Lib.Lookup(k, sl) }

  /** e is running its own program, outside fork and pgfault. */
  predicate Idle(s: Sys, e: EnvId) { Live(s, e) && s.code[e].fault == NoFault && s.code[e].fork == NotForking }

  // ---------- fork, from its child's creation on ----------

  /** The choices of one fork: what it starts from, who forks, its child, and the child's exception stack. */
  datatype Choice = Choice(k: State, e: EnvId, c: EnvId, stale: Env, stack: PageId)

  ghost predicate Tables(h: Choice, s: Sys, upto: nat)
  {
    && s.k.mem == h.k.mem && s.k.envs == h.k.envs[h.c := NewEnv(h.e, h.stale)]
    && forall sl :: Lookup(s.k, sl) == Lib.Duplicated(h.k, h.e, h.c, upto, sl)
  }

  /** Between duppage's two calls on page pn. */
  ghost predicate HalfDone(h: Choice, s: Sys, pn: nat)
  {
    && s.k.mem == h.k.mem && s.k.envs == h.k.envs[h.c := NewEnv(h.e, h.stale)]
    && UserPage(h, pn) && Writes(h, pn)
    && forall sl :: Lookup(s.k, sl) ==
         if sl == Slot(h.c, pn) then Some(Pte(h.k.pte[Slot(h.e, pn)].page, {U, P, COW}))
         else Lib.Duplicated(h.k, h.e, h.c, pn, sl)
  }

  ghost predicate TablesDone(h: Choice, s: Sys, child: Env)
  {
    && s.k.mem == h.k.mem[h.stack := ZeroPage()] && s.k.envs == h.k.envs[h.c := child]
    && forall sl :: Lookup(s.k, sl) ==
         if sl == Slot(h.c, XPN) then Some(Pte(h.stack, {U, P, W})) else Lib.Duplicated(h.k, h.e, h.c, XPN, sl)
  }

  predicate UserPage(h: Choice, pn: nat)
  {
    Region(pn) && Slot(h.e, pn) in h.k.pte && U in h.k.pte[Slot(h.e, pn)].perm
  }

  predicate Writes(h: Choice, pn: nat)
    requires UserPage(h, pn)
  {
    W in h.k.pte[Slot(h.e, pn)].perm || COW in h.k.pte[Slot(h.e, pn)].perm
  }

  /** How far the fork has come, page tables included; past its last step, it has done what the library's Fork does. */
  ghost predicate Forking(h: Choice, s: Sys)
  {
    && Live(s, h.e) && s.code[h.e].fault == NoFault && h.e != h.c
    && match s.code[h.e].fork
       case AtPage(c, pn) => c == h.c && FIRST <= pn <= XPN && Tables(h, s, pn)
       case AtMapChild(c, pn, cow) => c == h.c && UserPage(h, pn) && cow == Writes(h, pn) && Tables(h, s, pn)
       case AtMapSelf(c, pn, _) => c == h.c && HalfDone(h, s, pn)
       case AtChildXstack(c) => c == h.c && Tables(h, s, XPN)
       case AtChildUpcall(c) => c == h.c && TablesDone(h, s, NewEnv(h.e, h.stale))
       case AtStart(c) => c == h.c && TablesDone(h, s, NewEnv(h.e, h.stale).(upcall := UPCALL))
       case NotForking => Lib.Forked(h.k, s.k, h.e, h.c, h.stack, h.stale)
       case _ => false
  }

  /** A step of the fork. */
  predicate Own(h: Choice, a: Action)
  {
    && a.e == h.e
    && (a.ForkScan? || a.DupChild? || a.DupSelf? || (a.ChildXstack? && a.page == Some(h.stack)) || a.ChildUpcall?
        || a.ChildStart?)
  }

  lemma NextPage(h: Choice, pn: nat, sl: Slot)
    requires sl.pn != pn || !UserPage(h, pn)
    ensures Lib.Duplicated(h.k, h.e, h.c, pn + 1, sl) == Lib.Duplicated(h.k, h.e, h.c, pn, sl)
  {
  }

  lemma ScanStep(h: Choice, s: Sys, a: Action)
    requires Inv(s) && Forking(h, s) && Enabled(s, a) && a == ForkScan(h.e)
    ensures Forking(h, Do(s, a))
  {
    var t, pn := Do(s, a), s.code[h.e].fork.pn;
    assert Lookup(s.k, Slot(h.e, pn)) == Lookup(h.k, Slot(h.e, pn));
    if t.code[h.e].fork.AtPage? {
      forall sl ensures Lookup(t.k, sl) == Lib.Duplicated(h.k, h.e, h.c, pn + 1, sl) { NextPage(h, pn, sl); }
    }
  }

  lemma ChildTables(h: Choice, s: Sys, t: Sys)
    requires Forking(h, s) && DupChildStep(s, t, h.e)
    ensures Forking(h, t)
  {
    var pn := s.code[h.e].fork.pn;
    assert Lookup(s.k, Slot(h.e, pn)) == Lookup(h.k, Slot(h.e, pn));
    if t.code[h.e].fork.AtPage? {
      forall sl ensures Lookup(t.k, sl) == Lib.Duplicated(h.k, h.e, h.c, pn + 1, sl) {
        assert Lookup(s.k, sl) == Lib.Duplicated(h.k, h.e, h.c, pn, sl);
        if sl.pn != pn { NextPage(h, pn, sl); }
      }
    }
  }

  lemma SelfTables(h: Choice, s: Sys, t: Sys)
    requires Forking(h, s) && DupSelfStep(s, t, h.e)
    ensures Forking(h, t)
  {
    var pn := s.code[h.e].fork.pn;
    assert Lookup(s.k, Slot(h.e, pn)) == Lookup(h.k, Slot(h.e, pn));
    forall sl ensures Lookup(t.k, sl) == Lib.Duplicated(h.k, h.e, h.c, pn + 1, sl) {
      assert sl != Slot(h.c, pn) ==> Lookup(s.k, sl) == Lib.Duplicated(h.k, h.e, h.c, pn, sl);
      assert sl == Slot(h.c, pn) ==> Lookup(s.k, sl) == Some(Pte(h.k.pte[Slot(h.e, pn)].page, {U, P, COW}));
      if sl.pn != pn { NextPage(h, pn, sl); }
    }
  }

  lemma StackCall(h: Choice, s: Sys, a: Action)
    requires Inv(s) && Forking(h, s) && Enabled(s, a) && a.ChildXstack? && Own(h, a)
    ensures Forking(h, Do(s, a))
  {
    assert {U, P, W} + {P} == {U, P, W};
    assert PGNUM(UXSTACKTOP - PGSIZE) == XPN;
    assert ForkOk(s, h.e);
  }

  lemma TwiceSet(m: map<EnvId, Env>, n: map<EnvId, Env>, c: EnvId, x: Env, y: Env)
    requires n == m[c := x]
    ensures n[c := y] == m[c := y]
  {
  }

  lemma UpcallCall(h: Choice, s: Sys, a: Action)
    requires Inv(s) && Forking(h, s) && Enabled(s, a) && a.ChildUpcall? && a.e == h.e
    ensures Forking(h, Do(s, a))
  {
    assert ForkOk(s, h.e);
    var env := NewEnv(h.e, h.stale);
    assert Do(s, a).k == SetEnv(s.k, h.c, env.(upcall := UPCALL));
    TwiceSet(h.k.envs, s.k.envs, h.c, env, env.(upcall := UPCALL));
    assert forall sl :: Lookup(Do(s, a).k, sl) == Lookup(s.k, sl);
  }

  lemma StartCall(h: Choice, s: Sys, a: Action)
    requires Inv(s) && Forking(h, s) && Enabled(s, a) && a.ChildStart? && a.e == h.e
    ensures Forking(h, Do(s, a))
  {
    assert ForkOk(s, h.e);
    var env := NewEnv(h.e, h.stale).(upcall := UPCALL);
    assert Do(s, a).k == SetEnv(s.k, h.c, env.(port := env.port.(status := Runnable)));
    TwiceSet(h.k.envs, s.k.envs, h.c, env, env.(port := env.port.(status := Runnable)));
    assert forall sl :: Lookup(Do(s, a).k, sl) == Lookup(s.k, sl) == Lib.Lookup(Do(s, a).k, sl);
  }

  /** Each of the fork's own steps does its part of the library's Fork. */
  lemma ForkStep(h: Choice, s: Sys, a: Action)
    requires Inv(s) && Forking(h, s) && Enabled(s, a) && Own(h, a)
    ensures Forking(h, Do(s, a))
  {
    if a.ForkScan? { ScanStep(h, s, a); }
    else if a.DupChild? { DoDupChild(s, a); ChildTables(h, s, Do(s, a)); }
    else if a.DupSelf? { DoDupSelf(s, a); SelfTables(h, s, Do(s, a)); }
    else if a.ChildXstack? { StackCall(h, s, a); }
    else if a.ChildUpcall? { UpcallCall(h, s, a); }
    else { StartCall(h, s, a); }
  }

  /** Steps left. */
  function ForkRank(f: ForkPc): nat
  {
    match f
    case AtPage(_, pn) => if pn < XPN then 4 * (XPN - pn) + 5 else 5
    case AtMapChild(_, pn, _) => if pn < XPN then 4 * (XPN - pn) + 4 else 4
    case AtMapSelf(_, pn, _) => if pn < XPN then 4 * (XPN - pn) + 3 else 3
    case AtChildXstack(_) => 3
    case AtChildUpcall(_) => 2
    case AtStart(_) => 1
    case _ => 0
  }

  lemma StackIsFree(h: Choice, s: Sys)
    requires Tables(h, s, XPN) && !Referenced(h.k, h.stack)
    ensures !Referenced(s.k, h.stack)
  {
    assert forall sl :: sl in h.k.pte ==> h.k.pte[sl].page != h.stack;
    forall sl | sl in s.k.pte ensures s.k.pte[sl].page != h.stack {
      assert Lookup(s.k, sl) == Lib.Duplicated(h.k, h.e, h.c, XPN, sl);
    }
  }

  lemma StackCallPasses(h: Choice, s: Sys)
    requires Inv(s) && Forking(h, s) && s.code[h.e].fork.AtChildXstack? && !Referenced(h.k, h.stack)
    ensures Enabled(s, ChildXstack(h.e, Some(h.stack), true))
  {
    StackIsFree(h, s);
    assert ForkOk(s, h.e);
  }

  /** The fork's next step, if there is memory for its page tables and the child's stack is free to begin with. */
  lemma NextOwn(h: Choice, s: Sys) returns (a: Action)
    requires Inv(s) && Forking(h, s) && s.code[h.e].fork != NotForking && !Referenced(h.k, h.stack)
    ensures Enabled(s, a) && Own(h, a)
  {
    var f := s.code[h.e].fork;
    assert ForkOk(s, h.e);
    if f.AtPage? { a := ForkScan(h.e); }
    else if f.AtMapChild? { a := DupChild(h.e, true); ChildCallPasses(s, h.e); }
    else if f.AtMapSelf? { a := DupSelf(h.e, true); SelfCallPasses(s, h.e); }
    else if f.AtChildXstack? { a := ChildXstack(h.e, Some(h.stack), true); StackCallPasses(h, s); }
    else if f.AtChildUpcall? { a := ChildUpcall(h.e); }
    else { a := ChildStart(h.e); }
  }

  predicate AllOwn(h: Choice, acts: seq<Action>) { forall i :: 0 <= i < |acts| ==> Own(h, acts[i]) }

  lemma OwnThenOwn(h: Choice, a: Action, acts: seq<Action>)
    requires Own(h, a) && AllOwn(h, acts)
    ensures AllOwn(h, [a] + acts)
  {
  }

  /** The fork is over, and what the library's Fork leaves is left. */
  ghost predicate Ended(h: Choice, s: Sys)
  {
    && Idle(s, h.e)
    && Lib.Forked(h.k, s.k, h.e, h.c, h.stack, h.stale)
  }

  lemma RankDrops(h: Choice, s: Sys, a: Action)
    requires Forking(h, s) && Enabled(s, a) && Own(h, a)
    ensures h.e in Do(s, a).code && ForkRank(Do(s, a).code[h.e].fork) < ForkRank(s.code[h.e].fork)
  {
    assert Do(s, a).code[h.e] == NextCode(s, a);
  }

  lemma OneStep(h: Choice, s: Sys) returns (a: Action)
    requires Inv(s) && Forking(h, s) && s.code[h.e].fork != NotForking && !Referenced(h.k, h.stack)
    ensures Enabled(s, a) && Own(h, a) && Inv(Do(s, a)) && Forking(h, Do(s, a))
    ensures ForkRank(Do(s, a).code[h.e].fork) < ForkRank(s.code[h.e].fork)
  {
    a := NextOwn(h, s);
    ForkStep(h, s, a);
    Keep(s, a);
    RankDrops(h, s, a);
  }

  /** Undisturbed, with memory enough, the fork comes to its end, and has then done exactly what the library's Fork does. */
  lemma {:induction false} ForkCompletes(h: Choice, s: Sys) returns (acts: seq<Action>)
    requires Inv(s) && Forking(h, s) && !Referenced(h.k, h.stack)
    ensures Legal(s, acts) && AllOwn(h, acts) && Ended(h, Exec(s, acts))
    decreases ForkRank(s.code[h.e].fork)
  {
    acts := [];
    if s.code[h.e].fork != NotForking {
      var a := OneStep(h, s);
      var rest := ForkCompletes(h, Do(s, a));
      StepThenRun(s, a, rest);
      OwnThenOwn(h, a, rest);
      acts := [a] + rest;
    }
  }

  // ---------- fork, up to its child's creation ----------

  /** set_pgfault_handler's part. */
  lemma HandlerSteps(s: Sys, e: EnvId, xstack: PageId) returns (acts: seq<Action>)
    requires Inv(s) && Idle(s, e) && (!s.code[e].handler ==> !Referenced(s.k, xstack))
    ensures Legal(s, acts) && Inv(Exec(s, acts)) && Live(Exec(s, acts), e)
    ensures Exec(s, acts).code[e] == Code(AtExofork, NoFault, true)
    ensures Exec(s, acts).k == Lib.WithHandler(s.k, e, s.code[e].handler, Some(xstack))
  {
    var enter := ForkEnter(e);
    var s1 := Do(s, enter);
    Keep(s, enter);
    StepThenRun(s, enter, []);
    acts := [enter] + [];
    if !s.code[e].handler {
      var alloc, upcall := ForkXstack(e, Some(xstack), true), ForkUpcall(e);
      StackSteps(s1, e, xstack);
      StepThenRun(Do(s1, alloc), upcall, []);
      StepThenRun(s1, alloc, [upcall] + []);
      StepThenRun(s, enter, [alloc] + ([upcall] + []));
      acts := [enter] + ([alloc] + ([upcall] + []));
    }
  }

  lemma StackSteps(s: Sys, e: EnvId, xstack: PageId)
    requires Inv(s) && Live(s, e) && s.code[e] == Code(AtXstack, NoFault, false) && !Referenced(s.k, xstack)
    ensures var alloc, upcall := ForkXstack(e, Some(xstack), true), ForkUpcall(e);
      && Enabled(s, alloc) && Enabled(Do(s, alloc), upcall)
      && var t := Do(Do(s, alloc), upcall);
         && Inv(t) && Live(t, e) && t.code[e] == Code(AtExofork, NoFault, true)
         && t.k == Lib.WithHandler(s.k, e, false, Some(xstack))
  {
    var alloc, upcall := ForkXstack(e, Some(xstack), true), ForkUpcall(e);
    OwnStack(s, e, xstack);
    assert Inv(Do(s, alloc)) by { Keep(s, alloc); }
    OwnUpcall(Do(s, alloc), e);
    assert Inv(Do(Do(s, alloc), upcall)) by { Keep(Do(s, alloc), upcall); }
  }

  lemma OwnStack(s: Sys, e: EnvId, xstack: PageId)
    requires Live(s, e) && s.code[e] == Code(AtXstack, NoFault, false) && !Referenced(s.k, xstack)
    ensures var alloc := ForkXstack(e, Some(xstack), true);
      && Enabled(s, alloc) && Live(Do(s, alloc), e) && Do(s, alloc).code[e] == Code(AtUpcall, NoFault, false)
      && Do(s, alloc).k == State(s.k.mem[xstack := ZeroPage()], s.k.pte[Slot(e, XPN) := Pte(xstack, {U, P, W})], s.k.envs)
  {
    assert {U, P, W} + {P} == {U, P, W} && PGNUM(UXSTACKTOP - PGSIZE) == XPN;
  }

  lemma OwnUpcall(s: Sys, e: EnvId)
    requires Live(s, e) && s.code[e] == Code(AtUpcall, NoFault, false)
    ensures var upcall := ForkUpcall(e);
      && Enabled(s, upcall) && Live(Do(s, upcall), e) && Do(s, upcall).code[e] == Code(AtExofork, NoFault, true)
      && Do(s, upcall).k == State(s.k.mem, s.k.pte, s.k.envs[e := s.k.envs[e].(upcall := UPCALL)])
  {
  }

  lemma NothingShared(h: Choice, t: Sys)
    requires t.k == State(h.k.mem, h.k.pte, h.k.envs[h.c := NewEnv(h.e, h.stale)])
    ensures Tables(h, t, FIRST)
  {
    assert forall sl :: Lookup(t.k, sl) == Lookup(h.k, sl) == Lib.Duplicated(h.k, h.e, h.c, FIRST, sl);
  }

  /** sys_exofork. */
  lemma ExoforkStarts(h: Choice, s: Sys)
    requires Inv(s) && Live(s, h.e) && s.code[h.e] == Code(AtExofork, NoFault, true) && NewId(s.k, h.c) && h.k == s.k
    ensures Enabled(s, ForkChild(h.e, Some(h.c), h.stale, true))
    ensures var t := Do(s, ForkChild(h.e, Some(h.c), h.stale, true));
      Inv(t) && Forking(h, t) && t.code[h.e].fork == AtPage(h.c, FIRST)
  {
    var a := ForkChild(h.e, Some(h.c), h.stale, true);
    var t := Do(s, a);
    assert Inv(t) by { Keep(s, a); }
    assert t.k == State(h.k.mem, h.k.pte, h.k.envs[h.c := NewEnv(h.e, h.stale)]);
    assert Tables(h, t, FIRST) by { NothingShared(h, t); }
  }

  /** Everything up to the child's creation. */
  lemma ForkBegins(s: Sys, e: EnvId, xstack: PageId, c: EnvId, stale: Env, stack: PageId)
    returns (h: Choice, acts: seq<Action>)
    requires Inv(s) && Idle(s, e) && NewId(s.k, c) && !Referenced(s.k, stack) && stack != xstack
    requires !s.code[e].handler ==> !Referenced(s.k, xstack)
    ensures h == Choice(Lib.WithHandler(s.k, e, s.code[e].handler, Some(xstack)), e, c, stale, stack)
    ensures Legal(s, acts) && Inv(Exec(s, acts)) && Forking(h, Exec(s, acts)) && !Referenced(h.k, stack)
  {
    var first := HandlerSteps(s, e, xstack);
    var s1 := Exec(s, first);
    h := Choice(s1.k, e, c, stale, stack);
    HandlerLeavesFree(s.k, e, s.code[e].handler, xstack, stack);
    ExoforkStarts(h, s1);
    var a := ForkChild(e, Some(c), stale, true);
    StepThenRun(s1, a, []);
    RunThenRun(s, first, [a] + []);
    acts := first + ([a] + []);
  }

  /** The whole of fork, undisturbed and with memory enough, is the library's Fork. */
  lemma ForkIsLibraryFork(s: Sys, e: EnvId, xstack: PageId, c: EnvId, stale: Env, stack: PageId) returns (acts: seq<Action>)
    requires Inv(s) && Idle(s, e) && NewId(s.k, c) && !Referenced(s.k, stack) && stack != xstack
    requires !s.code[e].handler ==> !Referenced(s.k, xstack)
    ensures Legal(s, acts) && Idle(Exec(s, acts), e)
    ensures Lib.Forked(Lib.WithHandler(s.k, e, s.code[e].handler, Some(xstack)), Exec(s, acts).k, e, c, stack, stale)
  {
    var h, first := ForkBegins(s, e, xstack, c, stale, stack);
    var rest := ForkCompletes(h, Exec(s, first));
    RunThenRun(s, first, rest);
    acts := first + rest;
  }

  lemma HandlerLeavesFree(k: State, e: EnvId, installed: bool, xstack: PageId, stack: PageId)
    requires e in k.envs && !Referenced(k, stack) && stack != xstack
    ensures !Referenced(Lib.WithHandler(k, e, installed, Some(xstack)), stack)
  {
    assert forall sl :: sl in k.pte ==> k.pte[sl].page != stack;
  }

  // ---------- pgfault ----------

  /** The choices of one pgfault: what it starts from, who faults where, and the page it is given. */
  datatype Repair = Repair(k: State, e: EnvId, pn: nat, page: PageId)

  /** The page after i bytes of the copy. */
  function Half(g: Repair, i: nat): PageData
    requires Slot(g.e, g.pn) in g.k.pte && i <= PGSIZE
  {
    var src, zero := Content(g.k, g.k.pte[Slot(g.e, g.pn)].page), ZeroPage();
    assert |src[..i] + zero[i..]| == PGSIZE;
    src[..i] + zero[i..]
  }

  /** How far pgfault has come; past its last call, it has done what the library's PgFault does. */
  ghost predicate Repairing(g: Repair, s: Sys)
  {
    && Live(s, g.e) && Region(g.pn) && Slot(g.e, g.pn) in g.k.pte && !Referenced(g.k, g.page)
    && match s.code[g.e].fault
       case AtAlloc(pn) => pn == g.pn && s.k == g.k
       case AtCopy(pn, i) =>
         pn == g.pn && i <= PGSIZE
         && s.k == State(g.k.mem[g.page := Half(g, i)], g.k.pte[Slot(g.e, PFPN) := Pte(g.page, {U, P, W})], g.k.envs)
       case NoFault => s.k == Lib.Resolved(g.k, g.e, g.pn, g.page)
  }

  lemma AllocRepairs(g: Repair, s: Sys)
    requires Inv(s) && Repairing(g, s) && s.code[g.e].fault.AtAlloc?
    ensures Enabled(s, PfAlloc(g.e, Some(g.page), true))
    ensures var t := Do(s, PfAlloc(g.e, Some(g.page), true)); Repairing(g, t) && t.code[g.e].fault == AtCopy(g.pn, 0)
  {
    assert {U, P, W} + {P} == {U, P, W};
    Addresses(g.pn);
    assert Half(g, 0) == ZeroPage();
  }

  lemma CopyRepairs(g: Repair, s: Sys)
    requires Inv(s) && Repairing(g, s) && s.code[g.e].fault.AtCopy? && s.code[g.e].fault.i < PGSIZE
    ensures Enabled(s, PfCopy(g.e))
    ensures var t := Do(s, PfCopy(g.e)); Repairing(g, t) && t.code[g.e].fault == AtCopy(g.pn, s.code[g.e].fault.i + 1)
  {
    var i := s.code[g.e].fault.i;
    DoPfCopy(s, PfCopy(g.e));
    assert forall sl :: sl in g.k.pte ==> g.k.pte[sl].page != g.page;
    var src := Content(g.k, g.k.pte[Slot(g.e, g.pn)].page);
    assert Slot(g.e, g.pn) != Slot(g.e, PFPN);
    assert Half(g, i)[i := src[i]] == Half(g, i + 1);
    assert g.k.mem[g.page := Half(g, i)][g.page := Half(g, i + 1)] == g.k.mem[g.page := Half(g, i + 1)];
  }

  lemma MapRepairs(g: Repair, s: Sys)
    requires Inv(s) && Repairing(g, s) && s.code[g.e].fault == AtCopy(g.pn, PGSIZE)
    ensures Enabled(s, PfMap(g.e, true)) && Repairing(g, Do(s, PfMap(g.e, true)))
    ensures Do(s, PfMap(g.e, true)).code[g.e] == s.code[g.e].(fault := NoFault)
  {
    Addresses(g.pn);
    assert {U, P, W} + {P} == {U, P, W};
    assert Half(g, PGSIZE) == Content(g.k, g.k.pte[Slot(g.e, g.pn)].page);
  }

  lemma {:induction false} CopyCompletes(g: Repair, s: Sys) returns (acts: seq<Action>)
    requires Inv(s) && Repairing(g, s) && s.code[g.e].fault.AtCopy?
    ensures Legal(s, acts) && Repairing(g, Exec(s, acts))
    ensures Exec(s, acts).code[g.e] == s.code[g.e].(fault := NoFault)
    decreases PGSIZE - s.code[g.e].fault.i
  {
    if s.code[g.e].fault.i == PGSIZE {
      MapRepairs(g, s);
      StepThenRun(s, PfMap(g.e, true), []);
      acts := [PfMap(g.e, true)] + [];
    } else {
      CopyRepairs(g, s);
      Keep(s, PfCopy(g.e));
      var rest := CopyCompletes(g, Do(s, PfCopy(g.e)));
      StepThenRun(s, PfCopy(g.e), rest);
      acts := [PfCopy(g.e)] + rest;
    }
  }

  /** The fault and the allocation. */
  lemma RepairBegins(g: Repair, s: Sys)
    requires Inv(s) && Enabled(s, Fault(g.e, g.pn)) && g.k == s.k && !Referenced(s.k, g.page)
    ensures var fault, alloc := Fault(g.e, g.pn), PfAlloc(g.e, Some(g.page), true);
      && Enabled(Do(s, fault), alloc)
      && var t := Do(Do(s, fault), alloc);
         Inv(t) && Repairing(g, t) && t.code[g.e] == s.code[g.e].(fault := AtCopy(g.pn, 0)) && s.code[g.e].fault == NoFault
  {
    var fault, alloc := Fault(g.e, g.pn), PfAlloc(g.e, Some(g.page), true);
    FaultBegins(g, s);
    AllocRepairs(g, Do(s, fault));
    Keep(Do(s, fault), alloc);
  }

  lemma FaultBegins(g: Repair, s: Sys)
    requires Inv(s) && Enabled(s, Fault(g.e, g.pn)) && g.k == s.k && !Referenced(s.k, g.page)
    ensures var t := Do(s, Fault(g.e, g.pn));
      Inv(t) && Repairing(g, t) && t.code[g.e] == s.code[g.e].(fault := AtAlloc(g.pn)) && s.code[g.e].fault == NoFault
  {
    Keep(s, Fault(g.e, g.pn));
  }

  /** The whole of pgfault, undisturbed and with memory enough, is the library's PgFault. */
  lemma PgfaultIsLibraryPgfault(s: Sys, e: EnvId, pn: nat, page: PageId) returns (acts: seq<Action>)
    requires Inv(s) && Enabled(s, Fault(e, pn)) && !Referenced(s.k, page)
    ensures Legal(s, acts) && e in Exec(s, acts).code && Exec(s, acts).code[e] == s.code[e]
    ensures Exec(s, acts).k == Lib.Resolved(s.k, e, pn, page)
  {
    var g := Repair(s.k, e, pn, page);
    var fault, alloc := Fault(e, pn), PfAlloc(e, Some(page), true);
    RepairBegins(g, s);
    var rest := CopyCompletes(g, Do(Do(s, fault), alloc));
    StepThenRun(Do(s, fault), alloc, rest);
    StepThenRun(s, fault, [alloc] + rest);
    acts := [fault] + ([alloc] + rest);
  }
}
