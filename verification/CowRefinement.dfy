/** Lazy copying refines eager copying: every run of the copy-on-write system is a run of a machine in which each
    environment owns its memory and duppage copies the page on the spot. */
module CowRefinement {
  import opened Types
  import opened Layout
  import opened Ipc
  import opened Kernel
  import opened Cow
  import opened CowInvariant
  import opened CowRuns

  /** What an action does to the memories the programs see. */
  datatype Event =
    | Silent
    | Got(sl: Slot, off: nat, v: Byte)
    | Put(sl: Slot, off: nat, v: Byte)
    | Copied(parent: EnvId, child: EnvId, pn: nat)
    | Gone(e: EnvId)

  type Memories = map<Slot, PageData>

  /** The eager machine: private memories, and page copies made at once, as user/dumbfork.c makes them. */
  function EagerStep(m: Memories, ev: Event): Memories
    requires ev.Put? ==> ev.off < PGSIZE
  {
    match ev
    case Put(sl, off, v) => if sl in m then m[sl := m[sl][off := v]] else m
    case Copied(p, c, pn) => if Slot(p, pn) in m then m[Slot(c, pn) := m[Slot(p, pn)]] else m
    case Gone(e) => map sl | sl in m && sl.env != e :: m[sl]
    case _ => m
  }

  /** The page in flight belongs to the child only once the parent can no longer write it. */
  predicate Hidden(s: Sys, sl: Slot)
  {
    sl.env in s.k.envs && InFlight(s, Slot(s.k.envs[sl.env].parent, sl.pn), sl)
  }

  /** What the owner of a region slot sees there. */
  function Seen(s: Sys, sl: Slot): Option<PageData>
  {
    if sl in s.k.pte && Region(sl.pn) && !Hidden(s, sl) then Some(Content(s.k, s.k.pte[sl].page)) else None
  }

  /** The memory each environment sees in [UTEXT, UXSTACKTOP - PGSIZE). */
  ghost function View(s: Sys): Memories
  {
    map sl | sl in s.k.pte && Seen(s, sl).Some? :: Seen(s, sl).value
  }

  /** The event of an action: a duppage copies at its first call, or at its second if the page was writable. */
  ghost function Emit(s: Sys, a: Action): (ev: Event)
    requires Enabled(s, a)
    ensures ev.Put? ==> ev.off < PGSIZE
  {
    match a
    case Load(e, pn, off) =>
      if Region(pn) then Got(Slot(e, pn), off, Content(s.k, s.k.pte[Slot(e, pn)].page)[off]) else Silent
    case Store(e, pn, off, v) => if Region(pn) then Put(Slot(e, pn), off, v) else Silent
    case DupChild(e, _) =>
      var f := s.code[e].fork;
      if Slot(e, f.pn) in s.k.pte && W in s.k.pte[Slot(e, f.pn)].perm then Silent else Copied(e, f.child, f.pn)
    case DupSelf(e, _) =>
      var f := s.code[e].fork;
      if f.late then Copied(e, f.child, f.pn) else Silent
    case Exit(e) => Gone(e)
    case _ => Silent
  }

  /** A read returns what the eager memory holds. */
  predicate ReadOk(m: Memories, ev: Event)
  {
    ev.Got? ==> ev.sl in m && ev.off < PGSIZE && m[ev.sl][ev.off] == ev.v
  }

  ghost predicate Refines(s: Sys, a: Action)
    requires Enabled(s, a)
  {
    View(Do(s, a)) == EagerStep(View(s), Emit(s, a)) && ReadOk(View(s), Emit(s, a))
  }

  // ---------- stores through PFTEMP ----------

  /** Somebody sees the page. */
  ghost predicate Viewed(s: Sys, page: PageId) { exists sl :: sl in View(s) && sl in s.k.pte && s.k.pte[sl].page == page }

  /** pgfault leaves PFTEMP mapped writable to the last page it copied, past duppage's sharing of that page. A program's own
      store there is harmless if nobody sees the page, or the byte is there already. */
  ghost predicate Harmless(s: Sys, a: Action)
  {
    a.Store? && a.pn == PFPN && a.off < PGSIZE && Slot(a.e, PFPN) in s.k.pte ==>
      var page := s.k.pte[Slot(a.e, PFPN)].page;
      Content(s.k, page)[a.off] == a.v || !Viewed(s, page)
  }

  ghost predicate Consistent(s: Sys) { Inv(s) && LowPrivate(s) && Copies(s) }

  /** A page being copied, and the copy, are nobody else's to write: not by a data slot, not by a private low one, and not
      harmlessly through PFTEMP. */
  lemma StoreSparesCopy(s: Sys, a: Action, e: EnvId)
    requires Consistent(s) && Enabled(s, a) && a.Store? && Harmless(s, a) && e in s.code && s.code[e].fault.AtCopy?
    ensures SameData(s, Do(s, a), Slot(e, PFPN)) && SameData(s, Do(s, a), Slot(e, s.code[e].fault.pn))
  {
    assert FaultOk(s, e) && CopyOk(s, e);
    var sl, src := Slot(a.e, a.pn), Slot(e, s.code[e].fault.pn);
    var page := s.k.pte[sl].page;
    if Data(a.pn) {
      NotCopied(s, sl, e);
    } else if a.pn == PFPN && Content(s.k, page)[a.off] != a.v {
      CopyingIsSeen(s, e);
    }
  }

  lemma CopyingIsSeen(s: Sys, e: EnvId)
    requires Inv(s) && e in s.code && s.code[e].fault != NoFault
    ensures Slot(e, s.code[e].fault.pn) in View(s)
  {
    assert FaultOk(s, e);
    var p := s.k.envs[e].parent;
    if p in s.code { assert ForkOk(s, p); }
  }

  lemma StoreKeepsCopies(s: Sys, a: Action)
    requires Consistent(s) && Enabled(s, a) && a.Store? && Harmless(s, a)
    ensures Copies(Do(s, a))
  {
    var t := Do(s, a);
    assert t.code == s.code;
    forall e | e in t.code ensures CopyOk(t, e) {
      assert CopyOk(s, e);
      if s.code[e].fault.AtCopy? { StoreSparesCopy(s, a, e); }
      CopyFrame(s, t, e);
    }
  }

  lemma AllocKeepsCopies(s: Sys, t: Sys, e: EnvId, sl: Slot, page: PageId)
    requires Consistent(s) && AllocStep(s, t, e, sl, page) && CopyOk(t, e)
    ensures Copies(t)
  {
    assert ForkOk(s, e);
    assert forall b :: b in s.k.pte ==> s.k.pte[b].page != page;
    forall x | x in t.code ensures CopyOk(t, x) {
      assert CopyOk(s, x);
      if x != e { CopyFrame(s, t, x); }
    }
  }

  lemma CopyKeepsCopies(s: Sys, t: Sys, e: EnvId)
    requires Consistent(s) && CopyStep(s, t, e)
    ensures Copies(t)
  {
    assert FaultOk(s, e) && CopyOk(s, e);
    CopyNextByte(s, t, e);
    forall x | x in t.code ensures CopyOk(t, x) {
      assert CopyOk(s, x);
      if x != e { CopyFrame(s, t, x); }
    }
  }

  /** Steps that write no page and change no mapping of an environment that is copying. */
  lemma TablesKeepCopies(s: Sys, t: Sys)
    requires Consistent(s) && t.k.mem == s.k.mem
    requires forall x :: x in t.code && t.code[x].fault.AtCopy? ==> x in s.code && t.code[x].fault == s.code[x].fault
    requires forall sl: Slot :: sl.env in t.code && t.code[sl.env].fault.AtCopy? && sl in s.k.pte ==>
      sl in t.k.pte && t.k.pte[sl].page == s.k.pte[sl].page
    ensures Copies(t)
  {
    forall x | x in t.code ensures CopyOk(t, x) {
      if t.code[x].fault.AtCopy? {
        assert CopyOk(s, x);
        CopyFrame(s, t, x);
      }
    }
  }

  // ---------- what each kind of step does to the views ----------

  lemma ViewSame(s: Sys, t: Sys)
    requires forall sl :: Seen(t, sl) == Seen(s, sl)
    ensures View(t) == View(s)
  {
  }

  lemma ViewPut(s: Sys, t: Sys, at: Slot, d: PageData)
    requires Seen(t, at) == Some(d)
    requires forall sl :: sl != at ==> Seen(t, sl) == Seen(s, sl)
    ensures View(t) == View(s)[at := d]
  {
  }

  lemma ViewFrame(s: Sys, t: Sys)
    requires t.k.mem == s.k.mem && t.k.pte == s.k.pte
    requires forall sl :: Hidden(s, sl) <==> Hidden(t, sl)
    ensures View(t) == View(s)
  {
    forall sl ensures Seen(t, sl) == Seen(s, sl) {}
    ViewSame(s, t);
  }

  lemma HidesFrame(s: Sys, t: Sys, e: EnvId)
    requires s.code.Keys == s.k.envs.Keys == t.k.envs.Keys && e in s.code && e in t.code
    requires forall x :: x in s.k.envs ==> t.k.envs[x].parent == s.k.envs[x].parent
    requires t.code == s.code[e := t.code[e]]
    requires s.code[e].fork.AtMapSelf? || t.code[e].fork.AtMapSelf? ==> t.code[e].fork == s.code[e].fork
    ensures forall b :: Hidden(s, b) <==> Hidden(t, b)
  {
  }

  lemma WriteView(s: Sys, t: Sys, sl: Slot, off: nat, v: Byte)
    requires Inv(s) && off < PGSIZE && sl in s.k.pte && Data(sl.pn) && W in s.k.pte[sl].perm && Live(s, sl.env)
    requires t == Sys(WriteByte(s.k, s.k.pte[sl].page, off, v), s.code)
    ensures View(t) == EagerStep(View(s), if Region(sl.pn) then Put(sl, off, v) else Silent)
  {
    assert ForkOk(s, sl.env);
    LiveNotInFlight(s, Slot(s.k.envs[sl.env].parent, sl.pn), sl);
    forall b | b != sl ensures Seen(t, b) == Seen(s, b) {
      assert Hidden(t, b) <==> Hidden(s, b);
      if b in s.k.pte && s.k.pte[b].page == s.k.pte[sl].page && Region(b.pn) { assert InFlight(s, sl, b); }
    }
    if Region(sl.pn) {
      ViewPut(s, t, sl, Content(s.k, s.k.pte[sl].page)[off := v]);
    } else {
      ViewSame(s, t);
    }
  }

  /** A store to a page that at most its writer sees, unless there is nothing to see. */
  lemma UnseenWrite(s: Sys, t: Sys, page: PageId, off: nat, v: Byte)
    requires off < PGSIZE && t == Sys(WriteByte(s.k, page, off, v), s.code)
    requires Content(s.k, page)[off] == v || !Viewed(s, page)
    ensures View(t) == View(s)
  {
    var d := Content(s.k, page);
    assert d[off] == v ==> d[off := v] == d;
    forall b ensures Seen(t, b) == Seen(s, b) {
      assert Hidden(t, b) <==> Hidden(s, b);
      assert Seen(s, b).Some? ==> b in View(s);
    }
    ViewSame(s, t);
  }

  /** And if there is, it does change what somebody sees. */
  lemma SeenWrite(s: Sys, t: Sys, page: PageId, off: nat, v: Byte)
    requires off < PGSIZE && t == Sys(WriteByte(s.k, page, off, v), s.code)
    requires Content(s.k, page)[off] != v && Viewed(s, page)
    ensures View(t) != View(s)
  {
    var sl :| sl in View(s) && sl in s.k.pte && s.k.pte[sl].page == page;
    assert Hidden(t, sl) <==> Hidden(s, sl);
    assert View(t)[sl][off] == v && View(s)[sl][off] != v;
  }

  lemma AllocView(s: Sys, t: Sys, e: EnvId, sl: Slot, page: PageId)
    requires Inv(s) && AllocStep(s, t, e, sl, page)
    ensures View(t) == View(s)
  {
    HidesFrame(s, t, e);
    assert forall b :: b in s.k.pte ==> s.k.pte[b].page != page;
    forall b ensures Seen(t, b) == Seen(s, b) {}
    ViewSame(s, t);
  }

  lemma CopyView(s: Sys, t: Sys, e: EnvId)
    requires Inv(s) && CopyStep(s, t, e)
    ensures View(t) == View(s)
  {
    assert FaultOk(s, e);
    HidesFrame(s, t, e);
    forall b ensures Seen(t, b) == Seen(s, b) {}
    ViewSame(s, t);
  }

  lemma RemapView(s: Sys, t: Sys, e: EnvId)
    requires Consistent(s) && RemapStep(s, t, e) && s.code[e].fault.i == PGSIZE
    ensures View(t) == View(s)
  {
    var sl := Slot(e, s.code[e].fault.pn);
    HidesFrame(s, t, e);
    assert sl in s.k.pte && Content(s.k, t.k.pte[sl].page) == Content(s.k, s.k.pte[sl].page) by {
      assert FaultOk(s, e) && CopyOk(s, e);
      var dst, src := Content(s.k, s.k.pte[Slot(e, PFPN)].page), Content(s.k, s.k.pte[sl].page);
      assert dst == dst[..PGSIZE] && src == src[..PGSIZE];
    }
    forall b ensures Seen(t, b) == Seen(s, b) {}
    ViewSame(s, t);
  }

  lemma DupChildHides(s: Sys, t: Sys, e: EnvId)
    requires Inv(s) && DupChildStep(s, t, e)
    ensures var its := Slot(s.code[e].fork.child, s.code[e].fork.pn);
      && its !in s.k.pte && Region(its.pn) && (Hidden(t, its) <==> t.code[e].fork.AtMapSelf? && t.code[e].fork.late)
      && forall b :: b != its ==> (Hidden(s, b) <==> Hidden(t, b))
  {
    assert ForkOk(s, e);
  }

  lemma DupChildView(s: Sys, t: Sys, e: EnvId)
    requires Inv(s) && DupChildStep(s, t, e)
    ensures var f := s.code[e].fork;
      View(t) == EagerStep(View(s), if W in s.k.pte[Slot(e, f.pn)].perm then Silent else Copied(e, f.child, f.pn))
  {
    var f := s.code[e].fork;
    DupChildHides(s, t, e);
    var its, mine := Slot(f.child, f.pn), Slot(e, f.pn);
    assert f.cow || W !in s.k.pte[mine].perm by { assert ForkOk(s, e); }
    LiveNotInFlight(s, Slot(s.k.envs[e].parent, f.pn), mine);
    forall b | b != its ensures Seen(t, b) == Seen(s, b) {}
    if W in s.k.pte[mine].perm { ViewSame(s, t); } else { ViewPut(s, t, its, Content(s.k, s.k.pte[mine].page)); }
  }

  lemma DupSelfHides(s: Sys, t: Sys, e: EnvId)
    requires Inv(s) && DupSelfStep(s, t, e)
    ensures var its := Slot(s.code[e].fork.child, s.code[e].fork.pn);
      && !Hidden(t, its) && (Hidden(s, its) <==> s.code[e].fork.late)
      && forall b :: b != its ==> (Hidden(s, b) <==> Hidden(t, b))
  {
    assert ForkOk(s, e);
  }

  lemma DupSelfView(s: Sys, t: Sys, e: EnvId)
    requires Inv(s) && DupSelfStep(s, t, e)
    ensures var f := s.code[e].fork;
      View(t) == EagerStep(View(s), if f.late then Copied(e, f.child, f.pn) else Silent)
  {
    var f := s.code[e].fork;
    var its := Slot(f.child, f.pn);
    DupSelfHides(s, t, e);
    assert its in s.k.pte && Region(f.pn) && its != Slot(e, f.pn)
           && (f.late ==> s.k.pte[its].page == s.k.pte[Slot(e, f.pn)].page) by { assert ForkOk(s, e); }
    LiveNotInFlight(s, Slot(s.k.envs[e].parent, f.pn), Slot(e, f.pn));
    forall b | b != its ensures Seen(t, b) == Seen(s, b) {}
    if f.late { ViewPut(s, t, its, Content(s.k, s.k.pte[its].page)); } else { ViewSame(s, t); }
  }

  lemma ExoforkView(s: Sys, t: Sys, e: EnvId, c: EnvId, stale: Env)
    requires Inv(s) && ExoforkStep(s, t, e, c, stale)
    ensures View(t) == View(s)
  {
    assert ForkOk(s, e);
    forall b ensures Seen(t, b) == Seen(s, b) {}
    ViewSame(s, t);
  }

  lemma ExitHides(s: Sys, t: Sys, e: EnvId)
    requires Inv(s) && ExitStep(s, t, e)
    ensures forall b: Slot :: b.env != e ==> (Hidden(s, b) <==> Hidden(t, b))
  {
  }

  lemma ExitView(s: Sys, t: Sys, e: EnvId)
    requires Inv(s) && ExitStep(s, t, e)
    ensures View(t) == EagerStep(View(s), Gone(e))
  {
    ExitHides(s, t, e);
    forall b ensures Seen(t, b) == if b.env == e then None else Seen(s, b) {}
  }

  // ---------- one lemma per group of actions ----------

  ghost predicate Good(s: Sys, a: Action)
    requires Enabled(s, a)
  {
    Refines(s, a) && Copies(Do(s, a))
  }

  lemma RefineQuiet(s: Sys, a: Action)
    requires Consistent(s) && Enabled(s, a) && (a.Run? || a.Preempt? || a.Recv? || a.Send?)
    ensures Good(s, a)
  {
    assert Do(s, a).code == s.code;
    ViewFrame(s, Do(s, a));
    TablesKeepCopies(s, Do(s, a));
  }

  lemma RefineLoad(s: Sys, a: Action)
    requires Consistent(s) && Enabled(s, a) && a.Load?
    ensures Good(s, a)
  {
    assert Do(s, a).code == s.code;
    LiveNotInFlight(s, Slot(s.k.envs[a.e].parent, a.pn), Slot(a.e, a.pn));
    TablesKeepCopies(s, Do(s, a));
  }

  /** A store is its event exactly if it is not a harmful one through PFTEMP. */
  lemma RefineStore(s: Sys, a: Action)
    requires Consistent(s) && Enabled(s, a) && a.Store?
    ensures Refines(s, a) <==> Harmless(s, a)
  {
    assert Do(s, a).code == s.code;
    var sl := Slot(a.e, a.pn);
    var page := s.k.pte[sl].page;
    if Data(a.pn) {
      WriteView(s, Do(s, a), sl, a.off, a.v);
    } else {
      if a.pn != PFPN { LowUnseen(s, sl); }
      if Content(s.k, page)[a.off] != a.v && Viewed(s, page) {
        SeenWrite(s, Do(s, a), page, a.off, a.v);
      } else {
        UnseenWrite(s, Do(s, a), page, a.off, a.v);
      }
    }
  }

  lemma LowUnseen(s: Sys, sl: Slot)
    requires LowPrivate(s) && sl in s.k.pte && !Data(sl.pn) && sl.pn != PFPN
    ensures !Viewed(s, s.k.pte[sl].page)
  {
    assert Exclusive(s.k, sl);
  }

  lemma RefineLocal(s: Sys, a: Action)
    requires Consistent(s) && Enabled(s, a)
    requires a.Fault? || a.ForkEnter? || a.ForkUpcall? || a.ForkScan? || a.ChildUpcall? || a.ChildStart?
    ensures Good(s, a)
  {
    var t := Do(s, a);
    assert ForkOk(s, a.e);
    HidesFrame(s, t, a.e);
    ViewFrame(s, t);
    TablesKeepCopies(s, t);
  }

  lemma RefinePfAlloc(s: Sys, a: Action)
    requires Consistent(s) && Enabled(s, a) && a.PfAlloc?
    ensures Good(s, a)
  {
    assert {U, P, W} + {P} == {U, P, W};
    assert FaultOk(s, a.e);
    AllocView(s, Do(s, a), a.e, Slot(a.e, PFPN), a.page.value);
    AllocKeepsCopies(s, Do(s, a), a.e, Slot(a.e, PFPN), a.page.value);
  }

  lemma RefineXstack(s: Sys, a: Action)
    requires Consistent(s) && Enabled(s, a) && (a.ForkXstack? || a.ChildXstack?)
    ensures Good(s, a)
  {
    assert {U, P, W} + {P} == {U, P, W};
    assert ForkOk(s, a.e);
    var sl := Slot(if a.ForkXstack? then a.e else s.code[a.e].fork.child, XPN);
    AllocView(s, Do(s, a), a.e, sl, a.page.value);
    AllocKeepsCopies(s, Do(s, a), a.e, sl, a.page.value);
  }

  lemma RefineCopy(s: Sys, a: Action)
    requires Consistent(s) && Enabled(s, a) && (a.PfCopy? || a.PfMap?)
    ensures Good(s, a)
  {
    var t := Do(s, a);
    if a.PfCopy? {
      DoPfCopy(s, a);
      CopyView(s, t, a.e);
      CopyKeepsCopies(s, t, a.e);
    } else {
      DoPfMap(s, a);
      RemapView(s, t, a.e);
      TablesKeepCopies(s, t);
    }
  }

  lemma DupRefines(s: Sys, a: Action)
    requires Inv(s) && Enabled(s, a) && (a.DupChild? || a.DupSelf?)
    ensures Refines(s, a)
  {
    if a.DupChild? {
      DoDupChild(s, a);
      DupChildView(s, Do(s, a), a.e);
    } else {
      DoDupSelf(s, a);
      DupSelfView(s, Do(s, a), a.e);
    }
  }

  lemma RefineDup(s: Sys, a: Action)
    requires Consistent(s) && Enabled(s, a) && (a.DupChild? || a.DupSelf?)
    ensures Good(s, a)
  {
    DupRefines(s, a);
    assert ForkOk(s, a.e);
    if a.DupChild? { DoDupChild(s, a); } else { DoDupSelf(s, a); }
    TablesKeepCopies(s, Do(s, a));
  }

  lemma RefineFork(s: Sys, a: Action)
    requires Consistent(s) && Enabled(s, a) && (a.ForkChild? || a.Exit?)
    ensures Good(s, a)
  {
    if a.ForkChild? {
      ExoforkView(s, Do(s, a), a.e, a.child.value, a.stale);
    } else {
      ExitView(s, Do(s, a), a.e);
    }
    TablesKeepCopies(s, Do(s, a));
  }

  /** Every action but a harmful store. */
  lemma ActionRefines(s: Sys, a: Action)
    requires Consistent(s) && Enabled(s, a) && Harmless(s, a)
    ensures Good(s, a)
  {
    if a.Run? || a.Preempt? || a.Recv? || a.Send? { RefineQuiet(s, a); }
    else if a.Load? { RefineLoad(s, a); }
    else if a.Store? {
      RefineStore(s, a);
      StoreKeepsCopies(s, a);
    }
    else if a.PfAlloc? { RefinePfAlloc(s, a); }
    else if a.ForkXstack? || a.ChildXstack? { RefineXstack(s, a); }
    else if a.PfCopy? || a.PfMap? { RefineCopy(s, a); }
    else if a.DupChild? || a.DupSelf? { RefineDup(s, a); }
    else if a.ForkChild? || a.Exit? { RefineFork(s, a); }
    else { RefineLocal(s, a); }
  }

  /** One action of the lazy system is its event on the eager machine, if and only if it is no harmful store through
      PFTEMP. */
  lemma StepRefines(s: Sys, a: Action)
    requires Consistent(s) && Enabled(s, a)
    ensures View(Do(s, a)) == EagerStep(View(s), Emit(s, a)) && ReadOk(View(s), Emit(s, a)) <==> Harmless(s, a)
    ensures Harmless(s, a) ==> Consistent(Do(s, a))
  {
    if Harmless(s, a) {
      ActionRefines(s, a);
      Keep(s, a);
      KeepLow(s, a);
    } else {
      RefineStore(s, a);
    }
  }

  // ---------- whole runs ----------

  ghost function Trace(s: Sys, acts: seq<Action>): (evs: seq<Event>)
    requires Legal(s, acts)
    ensures |evs| == |acts| && forall i :: 0 <= i < |evs| && evs[i].Put? ==> evs[i].off < PGSIZE
    decreases |acts|
  {
    if acts == [] then [] else [Emit(s, acts[0])] + Trace(Do(s, acts[0]), acts[1..])
  }

  function EagerRun(m: Memories, evs: seq<Event>): Memories
    requires forall i :: 0 <= i < |evs| && evs[i].Put? ==> evs[i].off < PGSIZE
    decreases |evs|
  {
    if evs == [] then m else EagerRun(EagerStep(m, evs[0]), evs[1..])
  }

  predicate EagerReads(m: Memories, evs: seq<Event>)
    requires forall i :: 0 <= i < |evs| && evs[i].Put? ==> evs[i].off < PGSIZE
    decreases |evs|
  {
    evs == [] || (ReadOk(m, evs[0]) && EagerReads(EagerStep(m, evs[0]), evs[1..]))
  }

  /** No store of the run is a harmful one through PFTEMP. */
  ghost predicate HarmlessRun(s: Sys, acts: seq<Action>)
    requires Legal(s, acts)
    decreases |acts|
  {
    acts == [] || (Harmless(s, acts[0]) && HarmlessRun(Do(s, acts[0]), acts[1..]))
  }

  lemma {:induction false} RunRefines(s: Sys, acts: seq<Action>)
    requires Consistent(s) && Legal(s, acts) && HarmlessRun(s, acts)
    ensures Consistent(Exec(s, acts))
    ensures View(Exec(s, acts)) == EagerRun(View(s), Trace(s, acts))
    ensures EagerReads(View(s), Trace(s, acts))
    decreases |acts|
  {
    if acts != [] {
      StepRefines(s, acts[0]);
      RunRefines(Do(s, acts[0]), acts[1..]);
      var evs := Trace(s, acts);
      assert evs[0] == Emit(s, acts[0]) && evs[1..] == Trace(Do(s, acts[0]), acts[1..]);
    }
  }

  /** Copy-on-write fork refines eager fork: in every run from boot without a harmful store through PFTEMP, every
      environment's memory, and every value read on the way, is what the eager machine has after the same stores, page
      copies and exits. */
  lemma CowRefinesEager(s: Sys, acts: seq<Action>)
    requires Init(s) && Legal(s, acts) && HarmlessRun(s, acts)
    ensures View(Exec(s, acts)) == EagerRun(View(s), Trace(s, acts))
    ensures EagerReads(View(s), Trace(s, acts))
  {
    InitHolds(s);
    RunRefines(s, acts);
  }

  // ---------- what the two machines are compared by ----------

  /** A view holds every mapped page of [UTEXT, UXSTACKTOP - PGSIZE), with the contents of memory, but for the child's side of
      a page its parent is just duplicating and can still write. */
  lemma ViewMeans(s: Sys, sl: Slot)
    ensures sl in View(s) <==>
      && sl in s.k.pte && UTEXT <= VA(sl.pn) < UXSTACKTOP - PGSIZE
      && !(sl.env in s.k.envs && s.k.envs[sl.env].parent in s.code
           && s.code[s.k.envs[sl.env].parent].fork == AtMapSelf(sl.env, sl.pn, true))
    ensures sl in View(s) ==> View(s)[sl] == Content(s.k, s.k.pte[sl].page)
  {
  }

  /** Loads and stores in that range are the same loads and stores of the eager machine; each duppage is one page copy,
      at one of its two calls; an exit is an exit; and nothing else is an event. */
  lemma EmitMeans(s: Sys, a: Action)
    requires Enabled(s, a)
    ensures var ev := Emit(s, a);
      match a
      case Load(e, pn, off) =>
        if Region(pn) then ev == Got(Slot(e, pn), off, Content(s.k, s.k.pte[Slot(e, pn)].page)[off]) else ev == Silent
      case Store(e, pn, off, v) => if Region(pn) then ev == Put(Slot(e, pn), off, v) else ev == Silent
      case DupChild(e, _) =>
        var f := s.code[e].fork;
        var late := Slot(e, f.pn) in s.k.pte && W in s.k.pte[Slot(e, f.pn)].perm;
        && ev == (if late then Silent else Copied(e, f.child, f.pn))
        && (f.cow ==> Do(s, a).code[e].fork == AtMapSelf(f.child, f.pn, late))
      case DupSelf(e, _) =>
        var f := s.code[e].fork; ev == if f.late then Copied(e, f.child, f.pn) else Silent
      case Exit(e) => ev == Gone(e)
      case _ => ev == Silent
  {
  }

  lemma {:induction false} ExecPrefix(s: Sys, acts: seq<Action>, i: nat)
    requires Legal(s, acts) && i < |acts|
    ensures Legal(s, acts[..i]) && Enabled(Exec(s, acts[..i]), acts[i])
    ensures Trace(s, acts)[i] == Emit(Exec(s, acts[..i]), acts[i])
    decreases i
  {
    if i == 0 {
      assert acts[..0] == [];
    } else {
      ExecPrefix(Do(s, acts[0]), acts[1..], i - 1);
      assert acts[..i][1..] == acts[1..][..i - 1] && acts[..i][0] == acts[0];
    }
  }

  /** The trace has one event per action, that of the action in the state it finds. */
  lemma TraceMeans(s: Sys, acts: seq<Action>)
    requires Legal(s, acts)
    ensures |Trace(s, acts)| == |acts|
    ensures forall i :: 0 <= i < |acts| ==>
      Legal(s, acts[..i]) && Enabled(Exec(s, acts[..i]), acts[i]) && Trace(s, acts)[i] == Emit(Exec(s, acts[..i]), acts[i])
  {
    forall i | 0 <= i < |acts|
      ensures Legal(s, acts[..i]) && Enabled(Exec(s, acts[..i]), acts[i])
      ensures Trace(s, acts)[i] == Emit(Exec(s, acts[..i]), acts[i])
    {
      ExecPrefix(s, acts, i);
    }
  }
}
