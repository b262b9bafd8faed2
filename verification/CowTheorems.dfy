/** Consequences for all runs: one writer per shared page, no partial child, snapshots, isolation, no refusals. */
module CowTheorems {
  import opened Types
  import opened Layout
  import opened Ipc
  import opened Kernel
  import opened Cow
  import opened CowInvariant
  import opened CowRuns
  import opened CowRefinement

  // ---------- single writer ----------

  /** In every reachable state a page in the regions of two environments is writable nowhere, but for a PFTEMP
      mapping left over by pgfault and the parent's mapping of the one page in flight in its duppage. */
  lemma SharedPagesAreReadOnly(s: Sys, acts: seq<Action>, a: Slot, b: Slot, w: Slot)
    requires Init(s) && Legal(s, acts)
    requires var t := Exec(s, acts);
      && a in t.k.pte && b in t.k.pte && w in t.k.pte && Region(a.pn) && Region(b.pn) && a.env != b.env
      && t.k.pte[a].page == t.k.pte[b].page == t.k.pte[w].page && W in t.k.pte[w].perm
    ensures var t := Exec(s, acts);
      w.pn == PFPN || (w == a && InFlight(t, a, b)) || (w == b && InFlight(t, b, a))
  {
    InitHolds(s);
    RunInv(s, acts);
    var t := Exec(s, acts);
    if w.pn != PFPN {
      assert Data(w.pn);
      assert w != a ==> InFlight(t, w, a);
      assert w != b ==> InFlight(t, w, b);
    }
  }

  // ---------- no partial child ----------

  lemma StartedIsWhole(t: Sys, c: EnvId)
    requires Inv(t) && c in t.k.envs && t.k.envs[c].parent in t.k.envs
    requires t.k.envs[c].port.status == Runnable || t.k.envs[c].port.status == Running
    ensures Whole(t.k, t.k.envs[c].parent, c)
  {
    assert ForkOk(t, t.k.envs[c].parent);
    assert ChildOk(t, c);
  }

  lemma XstackIsOwn(t: Sys, c: EnvId)
    requires Inv(t) && HasXstack(t.k, c)
    ensures forall b :: b in t.k.pte && Data(b.pn) && b != Slot(c, XPN) ==> t.k.pte[b].page != t.k.pte[Slot(c, XPN)].page
  {
    assert ForkOk(t, c);
    assert forall b :: !InFlight(t, Slot(c, XPN), b);
  }

  /** A forked environment that may run has all its parent's pages, an exception stack of its own, and its upcall. */
  lemma NoPartialChild(s: Sys, acts: seq<Action>, c: EnvId)
    requires Init(s) && Legal(s, acts)
    requires var k := Exec(s, acts).k;
      && c in k.envs && k.envs[c].parent in k.envs
      && (k.envs[c].port.status == Runnable || k.envs[c].port.status == Running)
    ensures var k := Exec(s, acts).k; Whole(k, k.envs[c].parent, c)
    ensures var k := Exec(s, acts).k;
      Slot(c, XPN) in k.pte
      && forall b :: b in k.pte && Data(b.pn) && b != Slot(c, XPN) ==> k.pte[b].page != k.pte[Slot(c, XPN)].page
  {
    InitHolds(s);
    RunInv(s, acts);
    StartedIsWhole(Exec(s, acts), c);
    XstackIsOwn(Exec(s, acts), c);
  }

  /** fork's last call does start the child: it can run, and it is whole. */
  lemma ChildStarts(s: Sys, e: EnvId)
    requires Inv(s) && Enabled(s, ChildStart(e))
    ensures var t, c := Do(s, ChildStart(e)), s.code[e].fork.child;
      && c in t.k.envs && t.k.envs[c].port.status == Runnable && Enabled(t, Run(c)) && Whole(t.k, e, c)
      && Live(Do(t, Run(c)), c) && t.code[c] == Code(NotForking, NoFault, true)
  {
    assert ForkOk(s, e);
    assert HasPages(Do(s, ChildStart(e)).k, e, s.code[e].fork.child, XPN);
  }

  // ---------- fork and pgfault are never refused ----------

  /** The calls fork and pgfault make fail only for lack of memory or of environments: no other panic is reachable. */
  lemma OnlyMemoryFails(s: Sys, a: Action)
    requires Inv(s) && Issuable(s, a) && Call(s, a).Fail? && !a.Send?
    ensures Call(s, a).error == E_NO_MEM || Call(s, a).error == E_NO_FREE_ENV
  {
    if a.PfMap? || a.DupChild? || a.DupSelf? {
      OnlyMemoryFailsMap(s, a);
    } else {
      assert ForkOk(s, a.e);
    }
  }

  lemma OnlyMemoryFailsMap(s: Sys, a: Action)
    requires Inv(s) && Issuable(s, a) && Call(s, a).Fail? && (a.PfMap? || a.DupChild? || a.DupSelf?)
    ensures Call(s, a).error == E_NO_MEM
  {
    assert ForkOk(s, a.e) && FaultOk(s, a.e);
    Addresses(if a.PfMap? then s.code[a.e].fault.pn else s.code[a.e].fork.pn);
  }

  // ---------- isolation ----------

  predicate StoresTo(a: Action, sl: Slot) { a.Store? && Slot(a.e, a.pn) == sl }

  /** A store is the running owner's own; a page copy is into a slot the child did not have. */
  predicate EventOk(s: Sys, m: Memories, a: Action, ev: Event)
  {
    match ev
    case Put(sl, _, _) => StoresTo(a, sl) && Live(s, sl.env) && Region(sl.pn)
    case Copied(p, c, pn) =>
      p == a.e && p in s.code && c == ChildOf(s.code[p].fork) && c != 0 && Slot(c, pn) !in m && Slot(p, pn) in m
    case Gone(e) => a == Exit(e) && e in s.code && s.code[e].fork == NotForking
    case _ => true
  }

  lemma EmitOk(s: Sys, a: Action)
    requires Inv(s) && Enabled(s, a)
    ensures EventOk(s, View(s), a, Emit(s, a))
  {
    assert ForkOk(s, a.e);
    if a.DupChild? || a.DupSelf? {
      var f := s.code[a.e].fork;
      LiveNotInFlight(s, Slot(s.k.envs[a.e].parent, f.pn), Slot(a.e, f.pn));
      assert a.DupSelf? && f.late ==> Hidden(s, Slot(f.child, f.pn));
    }
  }

  /** The owner stores there, or exits. */
  predicate Touches(a: Action, sl: Slot) { StoresTo(a, sl) || a == Exit(sl.env) }

  lemma StepIsolated(s: Sys, a: Action, sl: Slot)
    requires Consistent(s) && Enabled(s, a) && Harmless(s, a) && sl in View(s) && !Touches(a, sl)
    ensures sl in View(Do(s, a)) && View(Do(s, a))[sl] == View(s)[sl]
  {
    StepRefines(s, a);
    EmitOk(s, a);
    EagerIsolated(s, View(s), a, Emit(s, a), sl);
  }

  lemma EagerIsolated(s: Sys, m: Memories, a: Action, ev: Event, sl: Slot)
    requires ev.Put? ==> ev.off < PGSIZE
    requires EventOk(s, m, a, ev) && sl in m && !Touches(a, sl)
    ensures sl in EagerStep(m, ev) && EagerStep(m, ev)[sl] == m[sl]
  {
  }

  /** What every permitted harmless step keeps, a run of such steps keeps. */
  lemma {:induction false} RunKeeps(s: Sys, acts: seq<Action>, good: Sys -> bool, permitted: Action -> bool)
    requires good(s) && Legal(s, acts) && HarmlessRun(s, acts) && forall i :: 0 <= i < |acts| ==> permitted(acts[i])
    requires forall u, a :: good(u) && Enabled(u, a) && Harmless(u, a) && permitted(a) ==> good(Do(u, a))
    ensures good(Exec(s, acts))
    decreases |acts|
  {
    if acts != [] {
      assert forall i :: 0 <= i < |acts[1..]| ==> acts[1..][i] == acts[i + 1];
      RunKeeps(Do(s, acts[0]), acts[1..], good, permitted);
    }
  }

  /** Whatever other environments do, short of a harmful store through PFTEMP, memory changes only by its owner's own
      stores and exit. */
  lemma Isolation(s: Sys, acts: seq<Action>, sl: Slot)
    requires Consistent(s) && Legal(s, acts) && HarmlessRun(s, acts) && sl in View(s)
    requires forall i :: 0 <= i < |acts| ==> !Touches(acts[i], sl)
    ensures sl in View(Exec(s, acts)) && View(Exec(s, acts))[sl] == View(s)[sl]
  {
    var was := View(s)[sl];
    forall u, a | Unchanged(u, sl, was) && Enabled(u, a) && Harmless(u, a) && !Touches(a, sl)
      ensures Unchanged(Do(u, a), sl, was)
    {
      StepIsolated(u, a, sl);
      StepRefines(u, a);
    }
    RunKeeps(s, acts, u => Unchanged(u, sl, was), a => !Touches(a, sl));
  }

  ghost predicate Unchanged(s: Sys, sl: Slot, was: PageData) { Consistent(s) && sl in View(s) && View(s)[sl] == was }

  // ---------- duppage takes a snapshot ----------

  lemma {:induction false} StaysInDuppage(s: Sys, acts: seq<Action>, e: EnvId)
    requires Inv(s) && Legal(s, acts) && e in s.code && s.code[e].fork.AtMapSelf?
    requires forall i :: 0 <= i < |acts| ==> !(acts[i].DupSelf? && acts[i].e == e)
    ensures e in Exec(s, acts).code && Exec(s, acts).code[e].fork == s.code[e].fork
    ensures forall i :: 0 <= i < |acts| ==> !Touches(acts[i], Slot(s.code[e].fork.child, s.code[e].fork.pn))
    decreases |acts|
  {
    if acts != [] {
      OneInDuppage(s, acts[0], e);
      Keep(s, acts[0]);
      StaysInDuppage(Do(s, acts[0]), acts[1..], e);
      assert forall i :: 0 < i < |acts| ==> acts[i] == acts[1..][i - 1];
    }
  }

  lemma OneInDuppage(s: Sys, a: Action, e: EnvId)
    requires Inv(s) && Enabled(s, a) && e in s.code && s.code[e].fork.AtMapSelf? && !(a.DupSelf? && a.e == e)
    ensures e in Do(s, a).code && Do(s, a).code[e].fork == s.code[e].fork
    ensures !Touches(a, Slot(s.code[e].fork.child, s.code[e].fork.pn))
  {
    ChildIsQuiet(s, a, e);
    if a.e != e {
      OtherCodeStays(s, a, e);
    } else {
      assert Do(s, a).code[e] == NextCode(s, a);
    }
  }

  /** A child under construction neither stores nor exits. */
  lemma ChildIsQuiet(s: Sys, a: Action, e: EnvId)
    requires Inv(s) && Enabled(s, a) && e in s.code && s.code[e].fork.AtMapSelf?
    ensures !Touches(a, Slot(s.code[e].fork.child, s.code[e].fork.pn)) && a != Exit(e)
  {
    assert ForkOk(s, e);
  }

  lemma AfterDupChild(s: Sys, e: EnvId, tables: bool)
    requires Inv(s) && Enabled(s, DupChild(e, tables)) && s.code[e].fork.cow
    ensures var s1, f := Do(s, DupChild(e, tables)), s.code[e].fork;
      && Inv(s1) && Slot(e, f.pn) in s.k.pte && e in s1.code
      && s1.code[e].fork == AtMapSelf(f.child, f.pn, W in s.k.pte[Slot(e, f.pn)].perm)
      && (W !in s.k.pte[Slot(e, f.pn)].perm ==>
            && Slot(e, f.pn) in View(s1) && Slot(f.child, f.pn) in View(s1)
            && View(s1)[Slot(f.child, f.pn)] == View(s1)[Slot(e, f.pn)])
  {
    Keep(s, DupChild(e, tables));
    DupRefines(s, DupChild(e, tables));
    EmitOk(s, DupChild(e, tables));
    DoDupChild(s, DupChild(e, tables));
  }

  lemma AfterDupSelf(s: Sys, e: EnvId, tables: bool)
    requires Inv(s) && Enabled(s, DupSelf(e, tables))
    ensures var t, f := Do(s, DupSelf(e, tables)), s.code[e].fork;
      if f.late then
        && Slot(e, f.pn) in View(s) && Slot(f.child, f.pn) in View(t)
        && View(t)[Slot(f.child, f.pn)] == View(s)[Slot(e, f.pn)]
      else View(t) == View(s)
  {
    DupRefines(s, DupSelf(e, tables));
    EmitOk(s, DupSelf(e, tables));
  }

  /** The parent has the page in hand writable. */
  predicate WritesPage(s: Sys, e: EnvId)
  {
    && e in s.code && s.code[e].fork.AtMapChild?
    && Slot(e, s.code[e].fork.pn) in s.k.pte && W in s.k.pte[Slot(e, s.code[e].fork.pn)].perm
  }

  /** Even if the parent stores between duppage's two calls, the child's page is the parent's page as it was at one
      instant between them: right after the first call if the page was shared already, and nobody else stores to it
      through a PFTEMP left over from before; else, whatever is stored, right before the second. */
  lemma DuppageSnapshot(s: Sys, e: EnvId, t1: bool, mid: seq<Action>, t2: bool)
    requires Inv(s) && Enabled(s, DupChild(e, t1)) && s.code[e].fork.cow
    requires var s1 := Do(s, DupChild(e, t1));
      && Legal(s1, mid) && (forall i :: 0 <= i < |mid| ==> !(mid[i].DupSelf? && mid[i].e == e))
      && Enabled(Exec(s1, mid), DupSelf(e, t2))
      && (!WritesPage(s, e) ==> Consistent(s) && HarmlessRun(s1, mid))
    ensures var s1 := Do(s, DupChild(e, t1)); var f := s.code[e].fork;
      var last := Do(Exec(s1, mid), DupSelf(e, t2));
      && Slot(e, f.pn) in s.k.pte
      && var instant := if W in s.k.pte[Slot(e, f.pn)].perm then Exec(s1, mid) else s1;
         && Slot(f.child, f.pn) in View(last) && Slot(e, f.pn) in View(instant)
         && View(last)[Slot(f.child, f.pn)] == View(instant)[Slot(e, f.pn)]
  {
    var s1, f := Do(s, DupChild(e, t1)), s.code[e].fork;
    AfterDupChild(s, e, t1);
    StaysInDuppage(s1, mid, e);
    InvAlong(s1, mid);
    AfterDupSelf(Exec(s1, mid), e, t2);
    if !WritesPage(s, e) {
      StepRefines(s, DupChild(e, t1));
      Isolation(s1, mid, Slot(f.child, f.pn));
    }
  }

  // ---------- fork takes a snapshot ----------

  /** What e's child c holds so far is what e holds. */
  ghost predicate Agree(m: Memories, e: EnvId, c: EnvId)
  {
    forall pn :: Slot(c, pn) in m ==> Slot(e, pn) in m && m[Slot(c, pn)] == m[Slot(e, pn)]
  }

  predicate OwnStore(a: Action, e: EnvId) { a.Store? && a.e == e && Region(a.pn) }

  lemma EventAgrees(s: Sys, m: Memories, a: Action, ev: Event, e: EnvId)
    requires ev.Put? ==> ev.off < PGSIZE
    requires Inv(s) && e in s.code && ChildOf(s.code[e].fork) != 0 && EventOk(s, m, a, ev) && !OwnStore(a, e)
    requires Agree(m, e, ChildOf(s.code[e].fork))
    ensures Agree(EagerStep(m, ev), e, ChildOf(s.code[e].fork))
  {
    assert ForkOk(s, e);
    if ev.Copied? { assert ForkOk(s, ev.parent); }
  }

  lemma KeepsChild(s: Sys, a: Action, e: EnvId)
    requires Inv(s) && Enabled(s, a) && e in s.code && ChildOf(s.code[e].fork) != 0
    requires !(a.ChildStart? && a.e == e)
    ensures e in Do(s, a).code && ChildOf(Do(s, a).code[e].fork) == ChildOf(s.code[e].fork)
  {
    if a.e != e { OtherCodeStays(s, a, e); } else { assert !a.Run? && !a.Preempt? ==> Live(s, e); }
  }

  lemma OtherCodeStays(s: Sys, a: Action, e: EnvId)
    requires Inv(s) && Enabled(s, a) && e in s.code && a.e != e && ChildOf(s.code[e].fork) != 0
    ensures e in Do(s, a).code && Do(s, a).code[e].fork == s.code[e].fork
  {
  }

  lemma StepAgrees(s: Sys, a: Action, e: EnvId)
    requires Consistent(s) && Enabled(s, a) && Harmless(s, a) && Parenting(s, e)
    requires !OwnStore(a, e) && !(a.ChildStart? && a.e == e)
    ensures Consistent(Do(s, a)) && Parenting(Do(s, a), e) && a != Exit(e)
    ensures ChildOf(Do(s, a).code[e].fork) == ChildOf(s.code[e].fork)
  {
    StepRefines(s, a);
    EmitOk(s, a);
    EventAgrees(s, View(s), a, Emit(s, a), e);
    KeepsChild(s, a, e);
  }

  /** e is in a fork, and what the child has so far e has too. */
  ghost predicate Parenting(s: Sys, e: EnvId)
  {
    e in s.code && ChildOf(s.code[e].fork) != 0 && Agree(View(s), e, ChildOf(s.code[e].fork))
  }

  lemma {:induction false} RunAgrees(s: Sys, acts: seq<Action>, e: EnvId)
    requires Consistent(s) && Legal(s, acts) && HarmlessRun(s, acts) && Parenting(s, e)
    requires forall i :: 0 <= i < |acts| ==> !OwnStore(acts[i], e) && !(acts[i].ChildStart? && acts[i].e == e)
    ensures Inv(Exec(s, acts)) && Agree(View(Exec(s, acts)), e, ChildOf(s.code[e].fork))
    ensures forall i :: 0 <= i < |acts| ==> acts[i] != Exit(e)
    decreases |acts|
  {
    if acts != [] {
      StepAgrees(s, acts[0], e);
      RunAgrees(Do(s, acts[0]), acts[1..], e);
      assert forall i :: 0 < i < |acts| ==> acts[i] == acts[1..][i - 1];
    }
  }

  lemma ChildComplete(t: Sys, e: EnvId, pn: nat)
    requires Inv(t) && e in t.code && t.code[e].fork.AtStart? && Region(pn)
    requires Slot(e, pn) in t.k.pte && U in t.k.pte[Slot(e, pn)].perm
    ensures Slot(t.code[e].fork.child, pn) in View(t)
  {
    assert ForkOk(t, e);
  }

  lemma NewChildEmpty(s: Sys, e: EnvId, child: Option<EnvId>, stale: Env, tables: bool)
    requires Consistent(s) && Enabled(s, ForkChild(e, child, stale, tables))
    ensures var s1 := Do(s, ForkChild(e, child, stale, tables));
      && Consistent(s1) && View(s1) == View(s) && e in s1.code && s1.code[e].fork == AtPage(child.value, FIRST)
      && child.value != 0 && forall pn :: Slot(child.value, pn) !in View(s1)
  {
    StepRefines(s, ForkChild(e, child, stale, tables));
  }

  /** A parent that stores nothing during its fork, while nobody stores harmfully through PFTEMP, gives the child its
      memory as it was at the exofork: when the fork is about to start the child, every user page of the parent is in the child with the contents of that moment. */
  lemma ForkIsSnapshot(s: Sys, e: EnvId, child: Option<EnvId>, stale: Env, tables: bool, acts: seq<Action>)
    requires Consistent(s) && Enabled(s, ForkChild(e, child, stale, tables))
    requires var s1 := Do(s, ForkChild(e, child, stale, tables));
      && Legal(s1, acts) && HarmlessRun(s1, acts)
      && (forall i :: 0 <= i < |acts| ==> !OwnStore(acts[i], e) && !(acts[i].ChildStart? && acts[i].e == e))
      && e in Exec(s1, acts).code && Exec(s1, acts).code[e].fork == AtStart(child.value)
    ensures var t := Exec(Do(s, ForkChild(e, child, stale, tables)), acts);
      forall pn :: Slot(e, pn) in View(s) && Slot(e, pn) in t.k.pte && U in t.k.pte[Slot(e, pn)].perm ==>
        Slot(child.value, pn) in View(t) && View(t)[Slot(child.value, pn)] == View(s)[Slot(e, pn)]
  {
    var c, s1 := child.value, Do(s, ForkChild(e, child, stale, tables));
    NewChildEmpty(s, e, child, stale, tables);
    RunAgrees(s1, acts, e);
    var t := Exec(s1, acts);
    forall pn | Slot(e, pn) in View(s) && Slot(e, pn) in t.k.pte && U in t.k.pte[Slot(e, pn)].perm
      ensures Slot(c, pn) in View(t) && View(t)[Slot(c, pn)] == View(s)[Slot(e, pn)]
    {
      Isolation(s1, acts, Slot(e, pn));
      ChildComplete(t, e, pn);
    }
  }

  // ---------- the store that does harm ----------

  /** After pgfault the environment can write the page at PFTEMP too. */
  lemma PfMapLeavesAlias(s: Sys, a: Action)
    requires Inv(s) && Enabled(s, a) && a.PfMap?
    ensures var k, sl, alias := Do(s, a).k, Slot(a.e, s.code[a.e].fault.pn), Slot(a.e, PFPN);
      && sl in k.pte && alias in k.pte && k.pte[sl].page == k.pte[alias].page
      && W in k.pte[sl].perm && W in k.pte[alias].perm
  {
    DoPfMap(s, a);
    assert FaultOk(s, a.e);
  }

  /** e, in a fork, comes to a page that it can write at PFTEMP as well. */
  ghost predicate Aliased(s: Sys, e: EnvId)
  {
    && Live(s, e) && s.code[e].fault == NoFault && s.code[e].fork.AtMapChild? && s.code[e].fork.cow
    && var sl, alias := Slot(e, s.code[e].fork.pn), Slot(e, PFPN);
       && sl in s.k.pte && alias in s.k.pte && s.k.pte[sl].page == s.k.pte[alias].page
       && W in s.k.pte[sl].perm && {U, W} <= s.k.pte[alias].perm
  }

  /** The failing input: duppage shares the page, and then its owner's store at PFTEMP changes the child's memory. */
  lemma StoreThroughPftemp(s: Sys, e: EnvId, off: nat, v: Byte)
    requires Consistent(s) && Aliased(s, e) && off < PGSIZE && Content(s.k, s.k.pte[Slot(e, PFPN)].page)[off] != v
    ensures var its := Slot(s.code[e].fork.child, s.code[e].fork.pn);
      && Legal(s, [DupChild(e, true), DupSelf(e, true)])
      && var t := Exec(s, [DupChild(e, true), DupSelf(e, true)]);
         && Enabled(t, Store(e, PFPN, off, v)) && !Harmless(t, Store(e, PFPN, off, v))
         && its.env != e && its in View(t) && its in View(Do(t, Store(e, PFPN, off, v)))
         && View(Do(t, Store(e, PFPN, off, v)))[its] == View(t)[its][off := v] != View(t)[its]
  {
    BothCallsPass(s, e);
    TwoSteps(s, DupChild(e, true), DupSelf(e, true));
    var t := Do(Do(s, DupChild(e, true)), DupSelf(e, true));
    var its := Slot(s.code[e].fork.child, s.code[e].fork.pn);
    AliasOfShared(t, e, its, off, v);
  }

  /** After both calls the child has the page, and nothing has happened to the alias. */
  lemma BothCallsPass(s: Sys, e: EnvId)
    requires Inv(s) && Aliased(s, e)
    ensures Enabled(s, DupChild(e, true)) && Enabled(Do(s, DupChild(e, true)), DupSelf(e, true))
    ensures var t, its := Do(Do(s, DupChild(e, true)), DupSelf(e, true)), Slot(s.code[e].fork.child, s.code[e].fork.pn);
      && Inv(t) && its.env != e && Region(its.pn) && its in t.k.pte && Live(t, e)
      && t.code[e].fault == NoFault && !t.code[e].fork.AtMapSelf? && t.k.envs[its.env].parent == e
      && Slot(e, PFPN) in t.k.pte && t.k.pte[Slot(e, PFPN)] == s.k.pte[Slot(e, PFPN)]
      && t.k.pte[its].page == s.k.pte[Slot(e, PFPN)].page && t.k.mem == s.k.mem
  {
    assert ForkOk(s, e);
    ChildCallPasses(s, e);
    DoDupChild(s, DupChild(e, true));
    var t1 := Do(s, DupChild(e, true));
    assert Inv(t1) by { Keep(s, DupChild(e, true)); }
    SelfCallPasses(t1, e);
    DoDupSelf(t1, DupSelf(e, true));
    assert Inv(Do(t1, DupSelf(e, true))) by { Keep(t1, DupSelf(e, true)); }
  }

  lemma AliasOfShared(t: Sys, e: EnvId, its: Slot, off: nat, v: Byte)
    requires Inv(t) && Live(t, e) && t.code[e].fault == NoFault && !t.code[e].fork.AtMapSelf?
    requires its in t.k.pte && Region(its.pn) && its.env in t.k.envs && t.k.envs[its.env].parent == e
    requires Slot(e, PFPN) in t.k.pte && {U, W} <= t.k.pte[Slot(e, PFPN)].perm
    requires t.k.pte[its].page == t.k.pte[Slot(e, PFPN)].page && off < PGSIZE && Content(t.k, t.k.pte[its].page)[off] != v
    ensures var store := Store(e, PFPN, off, v);
      && Enabled(t, store) && !Harmless(t, store) && its in View(t) && its in View(Do(t, store))
      && View(Do(t, store))[its] == View(t)[its][off := v] != View(t)[its]
  {
    var u := Do(t, Store(e, PFPN, off, v));
    var d := Content(t.k, t.k.pte[its].page);
    assert u.code == t.code && u.k == WriteByte(t.k, t.k.pte[its].page, off, v);
    assert Seen(t, its) == Some(d) && Seen(u, its) == Some(d[off := v]);
    assert its in View(t);
    assert d[off := v][off] == v;
  }

  lemma TwoSteps(s: Sys, a: Action, b: Action)
    requires Enabled(s, a) && Enabled(Do(s, a), b)
    ensures Legal(s, [a, b]) && Exec(s, [a, b]) == Do(Do(s, a), b)
  {
    var t, u := Do(s, a), Do(Do(s, a), b);
    assert [a, b][1..] == [b] && [b][1..] == [];
    assert Legal(u, []) && Exec(u, []) == u;
    assert Legal(t, [b]) && Exec(t, [b]) == Exec(u, [b][1..]);
  }
}
