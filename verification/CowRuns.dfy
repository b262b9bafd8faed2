/** Every action keeps the invariant, so every reachable state has it; and what follows about all runs. */
module CowRuns {
  import opened Layout
  import opened Ipc
  import opened Kernel
  import opened Cow
  import opened CowInvariant

  lemma Addresses(pn: nat)
    ensures PGNUM(VA(pn)) == pn && Aligned(VA(pn))
    ensures Region(pn) ==> VA(pn) < UTOP
    ensures PGNUM(PFTEMP) == PFPN && Aligned(PFTEMP) && PFTEMP < UTOP && PFPN < FIRST
  {
  }

  lemma KeepStatus(s: Sys, a: Action)
    requires Inv(s) && Enabled(s, a) && (a.Run? || a.Preempt? || a.Load?)
    ensures Inv(Do(s, a))
  {
    var t := Do(s, a);
    assert t.code == s.code;
    forall e | UnderConstruction(s, e) ensures t.k.envs[e] == s.k.envs[e] { assert ForkOk(s, s.k.envs[e].parent); }
    KeepPorts(s, t);
  }

  lemma KeepIpc(s: Sys, a: Action)
    requires Inv(s) && Enabled(s, a) && (a.Recv? || a.Send?)
    ensures Inv(Do(s, a))
  {
    var t := Do(s, a);
    assert t.code == s.code;
    forall e | UnderConstruction(s, e) ensures t.k.envs[e] == s.k.envs[e] { assert ForkOk(s, s.k.envs[e].parent); }
    KeepPorts(s, t);
  }

  lemma KeepStore(s: Sys, a: Action)
    requires Inv(s) && Enabled(s, a) && a.Store?
    ensures Inv(Do(s, a))
  {
    assert Do(s, a).code == s.code;
    KeepWrite(s, Do(s, a), s.k.pte[Slot(a.e, a.pn)].page, a.off, a.v);
  }

  lemma KeepFault(s: Sys, a: Action)
    requires Inv(s) && Enabled(s, a) && a.Fault?
    ensures Inv(Do(s, a))
  {
    assert ForkOk(s, a.e);
    KeepLocal(s, Do(s, a), a.e);
  }

  lemma KeepEnter(s: Sys, a: Action)
    requires Inv(s) && Enabled(s, a) && (a.ForkEnter? || a.ForkUpcall?)
    ensures Inv(Do(s, a))
  {
    assert ForkOk(s, a.e);
    KeepLocal(s, Do(s, a), a.e);
  }

  lemma ScanOk(s: Sys, a: Action)
    requires Inv(s) && Enabled(s, a) && a.ForkScan?
    ensures ForkOk(Do(s, a), a.e) && LocalStep(s, Do(s, a), a.e)
  {
    var t := Do(s, a);
    assert ForkOk(s, a.e);
    assert HasPages(t.k, a.e, ChildOf(t.code[a.e].fork), Frontier(t.code[a.e].fork));
  }

  lemma KeepScan(s: Sys, a: Action)
    requires Inv(s) && Enabled(s, a) && a.ForkScan?
    ensures Inv(Do(s, a))
  {
    var t := Do(s, a);
    ScanOk(s, a);
    KeepLocal(s, t, a.e);
  }

  lemma ChildUpcallOk(s: Sys, a: Action)
    requires Inv(s) && Enabled(s, a) && a.ChildUpcall?
    ensures ForkOk(Do(s, a), a.e) && LocalStep(s, Do(s, a), a.e)
  {
    assert ForkOk(s, a.e);
  }

  lemma ChildStartOk(s: Sys, a: Action)
    requires Inv(s) && Enabled(s, a) && a.ChildStart?
    ensures ForkOk(Do(s, a), a.e) && LocalStep(s, Do(s, a), a.e)
  {
    assert ForkOk(s, a.e);
  }

  lemma KeepChild(s: Sys, a: Action)
    requires Inv(s) && Enabled(s, a) && (a.ChildUpcall? || a.ChildStart?)
    ensures Inv(Do(s, a))
  {
    if a.ChildUpcall? { ChildUpcallOk(s, a); } else { ChildStartOk(s, a); }
    assert FaultOk(s, a.e);
    KeepLocal(s, Do(s, a), a.e);
  }

  lemma KeepPfAlloc(s: Sys, a: Action)
    requires Inv(s) && Enabled(s, a) && a.PfAlloc?
    ensures Inv(Do(s, a))
  {
    PfAllocOk(s, a);
    KeepAlloc(s, Do(s, a), a.e, Slot(a.e, PFPN), a.page.value);
  }

  lemma PfAllocOk(s: Sys, a: Action)
    requires Inv(s) && Enabled(s, a) && a.PfAlloc?
    ensures a.page.Some? && AllocStep(s, Do(s, a), a.e, Slot(a.e, PFPN), a.page.value)
    ensures ForkOk(Do(s, a), a.e) && FaultOk(Do(s, a), a.e)
  {
    assert ForkOk(s, a.e) && FaultOk(s, a.e);
    assert {U, P, W} + {P} == {U, P, W};
    assert forall b :: b in s.k.pte ==> s.k.pte[b].page != a.page.value;
  }

  lemma KeepXstack(s: Sys, a: Action)
    requires Inv(s) && Enabled(s, a) && a.ForkXstack?
    ensures Inv(Do(s, a))
  {
    var t, page := Do(s, a), a.page.value;
    assert ForkOk(s, a.e);
    assert {U, P, W} + {P} == {U, P, W};
    assert AllocStep(s, t, a.e, Slot(a.e, XPN), page);
    KeepAlloc(s, t, a.e, Slot(a.e, XPN), page);
  }

  lemma KeepChildXstack(s: Sys, a: Action)
    requires Inv(s) && Enabled(s, a) && a.ChildXstack?
    ensures Inv(Do(s, a))
  {
    var t, page, c := Do(s, a), a.page.value, s.code[a.e].fork.child;
    assert ForkOk(s, a.e);
    assert {U, P, W} + {P} == {U, P, W};
    assert AllocStep(s, t, a.e, Slot(c, XPN), page);
    assert HasPages(t.k, a.e, c, XPN);
    KeepAlloc(s, t, a.e, Slot(c, XPN), page);
  }

  lemma DoPfCopy(s: Sys, a: Action)
    requires Inv(s) && Enabled(s, a) && a.PfCopy?
    ensures CopyStep(s, Do(s, a), a.e)
  {
    assert FaultOk(s, a.e);
  }

  lemma DoPfMap(s: Sys, a: Action)
    requires Inv(s) && Enabled(s, a) && a.PfMap?
    ensures RemapStep(s, Do(s, a), a.e)
  {
    assert FaultOk(s, a.e);
    Addresses(s.code[a.e].fault.pn);
    assert {U, P, W} + {P} == {U, P, W};
  }

  lemma MapsIntoChild(k: State, e: EnvId, c: EnvId, pn: nat, perm: Perm, tables: bool)
    requires c != 0 && c in k.envs && k.envs[c].parent == e && Region(pn) && PermOk(perm) && W !in perm
    requires SysPageMap(k, e, 0, VA(pn), c, VA(pn), perm, tables).Done?
    ensures Slot(e, pn) in k.pte
    ensures SysPageMap(k, e, 0, VA(pn), c, VA(pn), perm, tables).s
            == State(k.mem, k.pte[Slot(c, pn) := Pte(k.pte[Slot(e, pn)].page, perm)], k.envs)
  {
    Addresses(pn);
    assert perm + {P} == perm;
  }

  /** With memory for page tables, neither of duppage's calls is refused. */
  lemma ChildCallPasses(s: Sys, e: EnvId)
    requires Inv(s) && Live(s, e) && s.code[e].fault == NoFault && s.code[e].fork.AtMapChild?
    ensures Enabled(s, DupChild(e, true))
  {
    assert ForkOk(s, e);
    Addresses(s.code[e].fork.pn);
  }

  lemma SelfCallPasses(s: Sys, e: EnvId)
    requires Inv(s) && Live(s, e) && s.code[e].fault == NoFault && s.code[e].fork.AtMapSelf?
    ensures Enabled(s, DupSelf(e, true))
  {
    assert ForkOk(s, e);
    Addresses(s.code[e].fork.pn);
  }

  lemma DupChildCall(s: Sys, a: Action)
    requires Enabled(s, a) && a.DupChild?
    ensures Live(s, a.e) && s.code[a.e].fork.AtMapChild? && s.code[a.e].fault == NoFault
    ensures var f := s.code[a.e].fork;
      var r := SysPageMap(s.k, a.e, 0, VA(f.pn), f.child, VA(f.pn), if f.cow then {U, P, COW} else {U, P}, a.tables);
      r.Done? && Do(s, a) == Sys(r.s, s.code[a.e := NextCode(s, a)])
  {
  }

  lemma DoDupChild(s: Sys, a: Action)
    requires Inv(s) && Enabled(s, a) && a.DupChild?
    ensures DupChildStep(s, Do(s, a), a.e)
  {
    DupChildCall(s, a);
    assert ForkOk(s, a.e);
    var f := s.code[a.e].fork;
    MapsIntoChild(s.k, a.e, f.child, f.pn, if f.cow then {U, P, COW} else {U, P}, a.tables);
  }

  lemma DoDupSelf(s: Sys, a: Action)
    requires Inv(s) && Enabled(s, a) && a.DupSelf?
    ensures DupSelfStep(s, Do(s, a), a.e)
  {
    DupSelfCall(s, a);
    assert ForkOk(s, a.e);
    MapsOwn(s.k, a.e, s.code[a.e].fork.pn, {U, P, COW}, a.tables);
  }

  lemma MapsOwn(k: State, e: EnvId, pn: nat, perm: Perm, tables: bool)
    requires Region(pn) && PermOk(perm) && SysPageMap(k, e, 0, VA(pn), 0, VA(pn), perm, tables).Done?
    ensures Slot(e, pn) in k.pte
    ensures SysPageMap(k, e, 0, VA(pn), 0, VA(pn), perm, tables).s
            == State(k.mem, k.pte[Slot(e, pn) := Pte(k.pte[Slot(e, pn)].page, perm)], k.envs)
  {
    Addresses(pn);
    assert perm + {P} == perm;
  }

  lemma DupSelfCall(s: Sys, a: Action)
    requires Enabled(s, a) && a.DupSelf?
    ensures Live(s, a.e) && s.code[a.e].fork.AtMapSelf? && s.code[a.e].fault == NoFault
    ensures var f := s.code[a.e].fork;
      var r := SysPageMap(s.k, a.e, 0, VA(f.pn), 0, VA(f.pn), {U, P, COW}, a.tables);
      r.Done? && Do(s, a) == Sys(r.s, s.code[a.e := NextCode(s, a)])
  {
  }

  lemma KeepFork(s: Sys, a: Action)
    requires Inv(s) && Enabled(s, a) && a.ForkChild?
    ensures Inv(Do(s, a))
  {
    KeepExofork(s, Do(s, a), a.e, a.child.value, a.stale);
  }

  lemma Keep(s: Sys, a: Action)
    requires Inv(s) && Enabled(s, a)
    ensures Inv(Do(s, a))
  {
    if a.Run? || a.Preempt? || a.Load? { KeepStatus(s, a); }
    else if a.Recv? || a.Send? { KeepIpc(s, a); }
    else if a.Store? { KeepStore(s, a); }
    else if a.Exit? { KeepExit(s, Do(s, a), a.e); }
    else if a.Fault? { KeepFault(s, a); }
    else if a.ForkEnter? || a.ForkUpcall? { KeepEnter(s, a); }
    else if a.ForkScan? { KeepScan(s, a); }
    else if a.ChildUpcall? || a.ChildStart? { KeepChild(s, a); }
    else if a.PfAlloc? { KeepPfAlloc(s, a); }
    else if a.ForkXstack? { KeepXstack(s, a); }
    else if a.ChildXstack? { KeepChildXstack(s, a); }
    else if a.ForkChild? { KeepFork(s, a); }
    else if a.PfCopy? { DoPfCopy(s, a); KeepCopy(s, Do(s, a), a.e); }
    else if a.PfMap? { DoPfMap(s, a); KeepRemap(s, Do(s, a), a.e); }
    else if a.DupChild? { DoDupChild(s, a); KeepDupChild(s, Do(s, a), a.e); }
    else { DoDupSelf(s, a); KeepDupSelf(s, Do(s, a), a.e); }
  }

  // ---------- pages below UTEXT ----------

  lemma LowAlloc(s: Sys, a: Action)
    requires LowPrivate(s) && Enabled(s, a) && (a.PfAlloc? || a.ForkXstack? || a.ChildXstack?)
    ensures LowPrivate(Do(s, a))
  {
    assert forall b :: b in s.k.pte ==> s.k.pte[b].page != a.page.value;
  }

  lemma LowPages(s: Sys, a: Action)
    requires Inv(s) && LowPrivate(s) && Enabled(s, a) && (a.PfMap? || a.DupChild? || a.DupSelf?)
    ensures LowPrivate(Do(s, a))
  {
    if a.PfMap? {
      DoPfMap(s, a);
      assert FaultOk(s, a.e);
    } else if a.DupChild? {
      DoDupChild(s, a);
      assert ForkOk(s, a.e);
    } else {
      DoDupSelf(s, a);
    }
  }

  lemma SameTable(s: Sys, a: Action)
    requires Enabled(s, a) && !a.Exit?
    requires !a.PfAlloc? && !a.ForkXstack? && !a.ChildXstack? && !a.PfMap? && !a.DupChild? && !a.DupSelf?
    ensures Do(s, a).k.pte == s.k.pte
  {
  }

  lemma KeepLow(s: Sys, a: Action)
    requires Inv(s) && LowPrivate(s) && Enabled(s, a)
    ensures LowPrivate(Do(s, a))
  {
    if a.PfAlloc? || a.ForkXstack? || a.ChildXstack? { LowAlloc(s, a); }
    else if a.PfMap? || a.DupChild? || a.DupSelf? { LowPages(s, a); }
    else if !a.Exit? { SameTable(s, a); }
  }

  // ---------- whole runs ----------

  lemma StepThenRun(s: Sys, a: Action, acts: seq<Action>)
    requires Enabled(s, a) && Legal(Do(s, a), acts)
    ensures Legal(s, [a] + acts) && Exec(s, [a] + acts) == Exec(Do(s, a), acts)
  {
    assert ([a] + acts)[1..] == acts;
  }

  lemma FirstStep(s: Sys, acts: seq<Action>)
    requires Legal(s, acts) && acts != []
    ensures Enabled(s, acts[0]) && Legal(Do(s, acts[0]), acts[1..]) && Exec(s, acts) == Exec(Do(s, acts[0]), acts[1..])
  {
  }

  lemma {:induction false} RunThenRun(s: Sys, first: seq<Action>, second: seq<Action>)
    requires Legal(s, first) && Legal(Exec(s, first), second)
    ensures Legal(s, first + second) && Exec(s, first + second) == Exec(Exec(s, first), second)
    decreases |first|
  {
    if first == [] {
      assert first + second == second;
    } else {
      var a, rest := first[0], first[1..];
      FirstStep(s, first);
      RunThenRun(Do(s, a), rest, second);
      StepThenRun(s, a, rest + second);
      assert first + second == [a] + (rest + second);
    }
  }

  lemma {:induction false} RunInv(s: Sys, acts: seq<Action>)
    requires Inv(s) && LowPrivate(s) && Legal(s, acts)
    ensures Inv(Exec(s, acts)) && LowPrivate(Exec(s, acts))
    decreases |acts|
  {
    if acts != [] {
      Keep(s, acts[0]);
      KeepLow(s, acts[0]);
      RunInv(Do(s, acts[0]), acts[1..]);
    }
  }

  lemma {:induction false} InvAlong(s: Sys, acts: seq<Action>)
    requires Inv(s) && Legal(s, acts)
    ensures Inv(Exec(s, acts))
    decreases |acts|
  {
    if acts != [] {
      Keep(s, acts[0]);
      InvAlong(Do(s, acts[0]), acts[1..]);
    }
  }
}
