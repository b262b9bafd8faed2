/** What every reachable state of the copy-on-write system satisfies. */
module CowInvariant {
  import opened Types
  import opened Layout
  import opened Ipc
  import opened Kernel
  import opened Cow

  ghost predicate Shape(s: Sys)
  {
    && s.code.Keys == s.k.envs.Keys
    && 0 !in s.k.envs
    && (forall sl :: sl in s.k.pte ==> sl.env in s.k.envs)
    && (forall sl :: sl in s.k.pte && Region(sl.pn) && COW in s.k.pte[sl].perm ==> U in s.k.pte[sl].perm)
  }

  /** The one page in flight: mapped into the child, still writable in the parent. */
  predicate InFlight(s: Sys, a: Slot, b: Slot)
  {
    a.pn == b.pn && a.env in s.code && s.code[a.env].fork == AtMapSelf(b.env, a.pn, true)
  }

  /** A page that a data slot can write is in no other data slot, but for the page in flight. */
  ghost predicate SingleWriter(s: Sys)
  {
    forall a, b | a in s.k.pte && b in s.k.pte && a != b && Data(a.pn) && Data(b.pn)
                  && s.k.pte[a].page == s.k.pte[b].page && W in s.k.pte[a].perm :: InFlight(s, a, b)
  }

  ghost predicate Exclusive(k: State, sl: Slot)
    requires sl in k.pte
  {
    forall b :: b in k.pte && b != sl ==> k.pte[b].page != k.pte[sl].page
  }

  /** While pgfault copies, PFTEMP is a writable page nobody else maps. */
  ghost predicate FaultOk(s: Sys, e: EnvId)
    requires e in s.code
  {
    var f := s.code[e].fault;
    f != NoFault ==>
      && Region(f.pn) && Slot(e, f.pn) in s.k.pte
      && W !in s.k.pte[Slot(e, f.pn)].perm && COW in s.k.pte[Slot(e, f.pn)].perm
      && (f.AtCopy? ==>
            && f.i <= PGSIZE
            && Slot(e, PFPN) in s.k.pte && W in s.k.pte[Slot(e, PFPN)].perm
            && Exclusive(s.k, Slot(e, PFPN)))
  }

  /** The first region page not yet handed to the child. */
  function Frontier(f: ForkPc): nat
  {
    match f
    case AtPage(_, pn) => pn
    case AtMapChild(_, pn, _) => pn
    case AtMapSelf(_, pn, _) => pn + 1
    case _ => XPN
  }

  ghost predicate HasPages(k: State, p: EnvId, c: EnvId, upto: nat)
  {
    forall pn: nat :: Region(pn) && pn < upto && Slot(p, pn) in k.pte && U in k.pte[Slot(p, pn)].perm ==> Slot(c, pn) in k.pte
  }

  ghost predicate HasXstack(k: State, c: EnvId)
  {
    Slot(c, XPN) in k.pte && W in k.pte[Slot(c, XPN)].perm
  }

  /** A fork in progress: its child has not started, holds only shared pages, and has every page below the frontier. */
  ghost predicate ForkOk(s: Sys, p: EnvId)
    requires p in s.code
  {
    var f := s.code[p].fork;
    var c := ChildOf(f);
    && (f != NotForking && f != AtXstack && f != AtUpcall ==> s.code[p].handler)
    && (c == 0 ==> f == NotForking || f == AtXstack || f == AtUpcall || f == AtExofork)
    && (c != 0 ==>
          && c in s.k.envs && c in s.code && c != p && s.k.envs[c].parent == p
          && s.k.envs[c].port.status == NotRunnable && !s.k.envs[c].port.recving
          && s.code[c] == Code(NotForking, NoFault, true)
          && (f.AtStart? ==> s.k.envs[c].upcall != 0)
          && FIRST <= Frontier(f) <= XPN
          && HasPages(s.k, p, c, Frontier(f))
          && (forall sl :: sl in s.k.pte && sl.env == c && Region(sl.pn) ==>
                sl.pn < Frontier(f) && W !in s.k.pte[sl].perm))
    && (f.AtMapChild? ==>
          && Region(f.pn) && Slot(p, f.pn) in s.k.pte && U in s.k.pte[Slot(p, f.pn)].perm
          && (f.cow <==> W in s.k.pte[Slot(p, f.pn)].perm || COW in s.k.pte[Slot(p, f.pn)].perm))
    && (f.AtMapSelf? ==>
          && Region(f.pn) && Slot(p, f.pn) in s.k.pte && U in s.k.pte[Slot(p, f.pn)].perm
          && Slot(f.child, f.pn) in s.k.pte
          && (f.late ==> && W in s.k.pte[Slot(p, f.pn)].perm
                         && s.k.pte[Slot(p, f.pn)].page == s.k.pte[Slot(f.child, f.pn)].page))
    && (f.AtChildUpcall? || f.AtStart? ==> HasXstack(s.k, c))
  }

  predicate Building(s: Sys, p: EnvId, c: EnvId) { c != 0 && p in s.code && ChildOf(s.code[p].fork) == c }

  /** An environment made by fork has all its parent's pages, its own exception stack, and an upcall. */
  ghost predicate Whole(k: State, p: EnvId, c: EnvId)
    requires c in k.envs
  {
    HasPages(k, p, c, XPN) && HasXstack(k, c) && k.envs[c].upcall != 0
  }

  /** Only forked environments have a parent that is still there; each is being built or whole. */
  ghost predicate ChildOk(s: Sys, c: EnvId)
    requires c in s.k.envs
  {
    var p := s.k.envs[c].parent;
    p in s.k.envs ==>
      && (p in s.k.envs && s.k.envs[p].parent in s.k.envs ==> !Building(s, s.k.envs[p].parent, p))
      && (!Building(s, p, c) ==> Whole(s.k, p, c))
  }

  ghost predicate Faults(s: Sys) { forall e :: e in s.code ==> FaultOk(s, e) }
  ghost predicate Forks(s: Sys) { forall e :: e in s.code ==> ForkOk(s, e) }
  ghost predicate Children(s: Sys) { forall c :: c in s.k.envs ==> ChildOk(s, c) }

  ghost predicate Inv(s: Sys)
  {
    && Shape(s)
    && SingleWriter(s)
    && Faults(s)
    && Forks(s)
    && Children(s)
  }

  /** What pgfault has copied so far is equal to the faulting page. */
  ghost predicate CopyOk(s: Sys, e: EnvId)
    requires e in s.code
  {
    var f := s.code[e].fault;
    f.AtCopy? ==>
      && f.i <= PGSIZE && Slot(e, PFPN) in s.k.pte && Slot(e, f.pn) in s.k.pte
      && Content(s.k, s.k.pte[Slot(e, PFPN)].page)[..f.i] == Content(s.k, s.k.pte[Slot(e, f.pn)].page)[..f.i]
  }

  ghost predicate Copies(s: Sys) { forall e :: e in s.code ==> CopyOk(s, e) }

  /** Pages mapped below UTEXT other than at PFTEMP are in no other slot. */
  ghost predicate LowPrivate(s: Sys)
  {
    forall a :: a in s.k.pte && !Data(a.pn) && a.pn != PFPN ==> Exclusive(s.k, a)
  }

  /** Environments made by the kernel at boot: own pages, no copy-on-write bits, no living parent. */
  ghost predicate Init(s: Sys)
  {
    && Shape(s)
    && (forall e :: e in s.code ==> s.code[e] == Code(NotForking, NoFault, false))
    && (forall e :: e in s.k.envs ==> s.k.envs[e].parent == 0)
    && (forall a, b :: a in s.k.pte && b in s.k.pte && a != b && Data(a.pn) && Data(b.pn) ==>
          s.k.pte[a].page != s.k.pte[b].page)
    && (forall a :: a in s.k.pte ==> COW !in s.k.pte[a].perm)
    && LowPrivate(s)
  }

  lemma InitHolds(s: Sys)
    requires Init(s)
    ensures Inv(s) && LowPrivate(s) && Copies(s)
  {
  }

  predicate SameTables(s: Sys, t: Sys) { t.k.mem == s.k.mem && t.k.pte == s.k.pte }

  predicate UnderConstruction(s: Sys, c: EnvId) { c in s.k.envs && Building(s, s.k.envs[c].parent, c) }

  lemma WriterFrame(s: Sys, t: Sys)
    requires SingleWriter(s) && t.k.pte == s.k.pte
    requires forall a, b :: InFlight(s, a, b) ==> InFlight(t, a, b)
    ensures SingleWriter(t)
  {
  }

  predicate SameSlot(s: Sys, t: Sys, sl: Slot)
  {
    (sl in s.k.pte <==> sl in t.k.pte) && (sl in s.k.pte && sl in t.k.pte ==> t.k.pte[sl] == s.k.pte[sl])
  }

  /** The slot sl maps the same page with the same contents. */
  predicate SameData(s: Sys, t: Sys, sl: Slot)
  {
    && sl in s.k.pte && sl in t.k.pte && t.k.pte[sl].page == s.k.pte[sl].page
    && Content(t.k, s.k.pte[sl].page) == Content(s.k, s.k.pte[sl].page)
  }

  lemma CopyFrame(s: Sys, t: Sys, e: EnvId)
    requires e in s.code && e in t.code && CopyOk(s, e) && t.code[e].fault == s.code[e].fault
    requires s.code[e].fault.AtCopy? ==> SameData(s, t, Slot(e, PFPN)) && SameData(s, t, Slot(e, s.code[e].fault.pn))
    ensures CopyOk(t, e)
  {
  }

  /** Every slot that maps page in t already did in s. */
  ghost predicate NoNewUser(s: Sys, t: Sys, page: PageId)
  {
    forall b :: b in t.k.pte && t.k.pte[b].page == page ==> b in s.k.pte && s.k.pte[b].page == page
  }

  lemma FaultFrame(s: Sys, t: Sys, e: EnvId)
    requires e in s.code && e in t.code && FaultOk(s, e) && t.code[e].fault == s.code[e].fault
    requires s.code[e].fault != NoFault ==> SameSlot(s, t, Slot(e, s.code[e].fault.pn))
    requires s.code[e].fault.AtCopy? ==>
      SameSlot(s, t, Slot(e, PFPN)) && NoNewUser(s, t, s.k.pte[Slot(e, PFPN)].page)
    ensures FaultOk(t, e)
  {
  }

  /** p's fork sees nothing new: its own slots and its child's, its child's environment and program. */
  lemma ForkFrame(s: Sys, t: Sys, p: EnvId)
    requires p in s.code && p in t.code && ForkOk(s, p)
    requires t.code[p].fork == s.code[p].fork && t.code[p].handler == s.code[p].handler
    requires forall sl: Slot :: ChildOf(s.code[p].fork) != 0 && Data(sl.pn)
                                && (sl.env == p || sl.env == ChildOf(s.code[p].fork)) ==>
      && (sl in s.k.pte <==> sl in t.k.pte)
      && (sl in s.k.pte && sl in t.k.pte ==> t.k.pte[sl] == s.k.pte[sl])
    requires var c := ChildOf(s.code[p].fork); c != 0 ==>
      && c in t.code && t.code[c] == s.code[c]
      && c in t.k.envs && t.k.envs[c].parent == s.k.envs[c].parent && t.k.envs[c].port == s.k.envs[c].port
      && (t.k.envs[c].upcall == s.k.envs[c].upcall || t.k.envs[c].upcall != 0)
    ensures ForkOk(t, p)
  {
    assert ChildOf(s.code[p].fork) != 0 ==> HasPages(t.k, p, ChildOf(s.code[p].fork), Frontier(s.code[p].fork));
  }

  /** c stays whole, or stays under construction: page presence, user access, upcalls and builders are the same. */
  lemma ChildFrame(s: Sys, t: Sys, c: EnvId)
    requires c in s.k.envs && c in t.k.envs && ChildOk(s, c)
    requires s.k.envs.Keys == t.k.envs.Keys
    requires forall x :: x in s.k.envs ==> t.k.envs[x].parent == s.k.envs[x].parent
    requires t.k.envs[c].upcall == s.k.envs[c].upcall || t.k.envs[c].upcall != 0
    requires forall x :: Building(s, s.k.envs[c].parent, x) <==> Building(t, s.k.envs[c].parent, x)
    requires forall p, x :: Building(t, p, x) ==> Building(s, p, x)
    requires forall sl: Slot :: (sl.env == c || sl.env == s.k.envs[c].parent) && Region(sl.pn) ==>
      && (sl in s.k.pte <==> sl in t.k.pte)
      && (sl in s.k.pte && sl in t.k.pte ==> (U in s.k.pte[sl].perm <==> U in t.k.pte[sl].perm))
    requires HasXstack(s.k, c) ==> HasXstack(t.k, c)
    ensures ChildOk(t, c)
  {
    var p := s.k.envs[c].parent;
    if p in s.k.envs && !Building(s, p, c) {
      assert HasPages(t.k, p, c, XPN);
    }
  }

  /** Ports may change, but not those of children under construction. */
  lemma KeepPorts(s: Sys, t: Sys)
    requires Inv(s) && SameTables(s, t) && t.code == s.code && t.k.envs.Keys == s.k.envs.Keys
    requires forall e :: e in s.k.envs ==> t.k.envs[e].parent == s.k.envs[e].parent && t.k.envs[e].upcall == s.k.envs[e].upcall
    requires forall e :: UnderConstruction(s, e) ==> t.k.envs[e] == s.k.envs[e]
    ensures Inv(t)
  {
    assert Forks(t) by {
      forall e | e in t.code ensures ForkOk(t, e) {
        assert ForkOk(s, e);
        assert ChildOf(s.code[e].fork) != 0 ==> UnderConstruction(s, ChildOf(s.code[e].fork));
        ForkFrame(s, t, e);
      }
    }
    assert Faults(t) by { forall e | e in t.code ensures FaultOk(t, e) { assert FaultOk(s, e); FaultFrame(s, t, e); } }
    assert Children(t) by { forall c | c in t.k.envs ensures ChildOk(t, c) { assert ChildOk(s, c); ChildFrame(s, t, c); } }
    assert SingleWriter(t) by { WriterFrame(s, t); }
  }

  /** Stores do not touch the invariant. */
  lemma KeepWrite(s: Sys, t: Sys, page: PageId, off: nat, v: Byte)
    requires Inv(s) && off < PGSIZE && t == Sys(WriteByte(s.k, page, off, v), s.code)
    ensures Inv(t)
  {
    assert Forks(t) by { forall e | e in t.code ensures ForkOk(t, e) { assert ForkOk(s, e); ForkFrame(s, t, e); } }
    assert Children(t) by { forall c | c in t.k.envs ensures ChildOk(t, c) { assert ChildOk(s, c); ChildFrame(s, t, c); } }
    assert SingleWriter(t) by { WriterFrame(s, t); }
    assert Faults(t) by { forall e | e in t.code ensures FaultOk(t, e) { assert FaultOk(s, e); FaultFrame(s, t, e); } }
  }

  /** The far end of a page in flight is never a running environment. */
  lemma LiveNotInFlight(s: Sys, a: Slot, b: Slot)
    requires Inv(s) && Live(s, b.env)
    ensures !InFlight(s, a, b)
  {
    if a.env in s.code { assert ForkOk(s, a.env); }
  }

  /** A page a running environment may store to is not a page some pgfault is copying from or to. */
  lemma NotCopied(s: Sys, sl: Slot, e: EnvId)
    requires Inv(s) && sl in s.k.pte && Data(sl.pn) && W in s.k.pte[sl].perm && Live(s, sl.env)
    requires e in s.code && s.code[e].fault != NoFault
    ensures Slot(e, s.code[e].fault.pn) in s.k.pte && s.k.pte[Slot(e, s.code[e].fault.pn)].page != s.k.pte[sl].page
    ensures s.code[e].fault.AtCopy? ==> Slot(e, PFPN) in s.k.pte && s.k.pte[Slot(e, PFPN)].page != s.k.pte[sl].page
  {
    assert FaultOk(s, e);
    assert ForkOk(s, sl.env);
    assert !InFlight(s, sl, Slot(e, s.code[e].fault.pn));
  }

  /** Only e's program counters move, and the environments of e and of the child it is building. */
  ghost predicate LocalStep(s: Sys, t: Sys, e: EnvId)
  {
    && SameTables(s, t) && Live(s, e)
    && e in t.code && t.code == s.code[e := t.code[e]]
    && t.k.envs.Keys == s.k.envs.Keys
    && (forall x :: x in s.k.envs ==>
          && t.k.envs[x].parent == s.k.envs[x].parent
          && (x != ChildOf(s.code[e].fork) ==> t.k.envs[x].port == s.k.envs[x].port)
          && (t.k.envs[x].upcall == s.k.envs[x].upcall || t.k.envs[x].upcall != 0))
    && (s.code[e].fork.AtMapSelf? || t.code[e].fork.AtMapSelf? ==> t.code[e].fork == s.code[e].fork)
    && (ChildOf(t.code[e].fork) == ChildOf(s.code[e].fork)
        || (ChildOf(t.code[e].fork) == 0 && s.code[e].fork.AtStart?))
  }

  lemma LocalForks(s: Sys, t: Sys, e: EnvId)
    requires Inv(s) && LocalStep(s, t, e) && ForkOk(t, e)
    ensures Forks(t)
  {
    assert ForkOk(s, e);
    forall p | p in t.code ensures ForkOk(t, p) {
      assert ForkOk(s, p);
      if p != e { ForkFrame(s, t, p); }
    }
  }

  lemma LocalChildren(s: Sys, t: Sys, e: EnvId)
    requires Inv(s) && LocalStep(s, t, e) && ForkOk(t, e)
    ensures Children(t)
  {
    assert ForkOk(s, e);
    forall c | c in t.k.envs ensures ChildOk(t, c) {
      assert ChildOk(s, c);
      if s.k.envs[c].parent != e || ChildOf(t.code[e].fork) == ChildOf(s.code[e].fork) { ChildFrame(s, t, c); }
    }
  }

  lemma KeepLocal(s: Sys, t: Sys, e: EnvId)
    requires Inv(s) && LocalStep(s, t, e) && ForkOk(t, e) && FaultOk(t, e)
    ensures Inv(t)
  {
    LocalForks(s, t, e);
    LocalChildren(s, t, e);
    WriterFrame(s, t);
    forall x | x in t.code ensures FaultOk(t, x) { assert FaultOk(s, x); if x != e { FaultFrame(s, t, x); } }
  }

  /** One slot outside the region changes, to a page nobody used; x is e or the child it is building. */
  ghost predicate AllocStep(s: Sys, t: Sys, e: EnvId, sl: Slot, page: PageId)
  {
    && Live(s, e) && !Referenced(s.k, page)
    && (sl == Slot(e, PFPN) || sl == Slot(e, XPN) || sl == Slot(ChildOf(s.code[e].fork), XPN))
    && sl.env in s.k.envs
    && t.k == State(s.k.mem[page := ZeroPage()], s.k.pte[sl := Pte(page, {U, P, W})], s.k.envs)
    && e in t.code && t.code == s.code[e := t.code[e]]
    && (s.code[e].fork.AtMapSelf? || t.code[e].fork.AtMapSelf? ==> t.code[e].fork == s.code[e].fork)
    && ChildOf(t.code[e].fork) == ChildOf(s.code[e].fork)
  }

  lemma AllocWriter(s: Sys, t: Sys, e: EnvId, sl: Slot, page: PageId)
    requires Inv(s) && AllocStep(s, t, e, sl, page)
    ensures SingleWriter(t) && Shape(t)
  {
    assert forall b :: b in s.k.pte ==> s.k.pte[b].page != page;
    forall a, b | a in t.k.pte && b in t.k.pte && a != b && Data(a.pn) && Data(b.pn)
                  && t.k.pte[a].page == t.k.pte[b].page && W in t.k.pte[a].perm
      ensures InFlight(t, a, b)
    {
      assert a != sl && b != sl;
      assert InFlight(s, a, b);
    }
  }

  lemma AllocForks(s: Sys, t: Sys, e: EnvId, sl: Slot, page: PageId)
    requires Inv(s) && AllocStep(s, t, e, sl, page) && ForkOk(t, e)
    ensures Forks(t)
  {
    assert ForkOk(s, e);
    forall p | p in t.code ensures ForkOk(t, p) {
      assert ForkOk(s, p);
      if p != e { ForkFrame(s, t, p); }
    }
  }

  lemma AllocFaults(s: Sys, t: Sys, e: EnvId, sl: Slot, page: PageId)
    requires Inv(s) && AllocStep(s, t, e, sl, page) && FaultOk(t, e)
    ensures Faults(t)
  {
    assert ForkOk(s, e);
    forall x | x in t.code ensures FaultOk(t, x) {
      assert FaultOk(s, x);
      if x != e { FaultFrame(s, t, x); }
    }
  }

  lemma KeepAlloc(s: Sys, t: Sys, e: EnvId, sl: Slot, page: PageId)
    requires Inv(s) && AllocStep(s, t, e, sl, page) && ForkOk(t, e) && FaultOk(t, e)
    ensures Inv(t)
  {
    AllocWriter(s, t, e, sl, page);
    AllocForks(s, t, e, sl, page);
    AllocFaults(s, t, e, sl, page);
    AllocChildren(s, t, e, sl, page);
  }

  lemma AllocChildren(s: Sys, t: Sys, e: EnvId, sl: Slot, page: PageId)
    requires Inv(s) && AllocStep(s, t, e, sl, page)
    ensures Children(t)
  {
    forall c | c in t.k.envs ensures ChildOk(t, c) { assert ChildOk(s, c); ChildFrame(s, t, c); }
  }

  /** pgfault's last call: the private copy takes the place of the shared page. */
  ghost predicate RemapStep(s: Sys, t: Sys, e: EnvId)
  {
    && Live(s, e) && s.code[e].fault.AtCopy? && Slot(e, PFPN) in s.k.pte
    && t.k == State(s.k.mem, s.k.pte[Slot(e, s.code[e].fault.pn) := Pte(s.k.pte[Slot(e, PFPN)].page, {U, P, W})], s.k.envs)
    && t.code == s.code[e := s.code[e].(fault := NoFault)]
  }

  lemma RemapWriter(s: Sys, t: Sys, e: EnvId)
    requires Inv(s) && RemapStep(s, t, e)
    ensures SingleWriter(t) && Shape(t)
  {
    assert FaultOk(s, e) && ForkOk(s, e);
    var sl := Slot(e, s.code[e].fault.pn);
    forall a, b | a in t.k.pte && b in t.k.pte && a != b && Data(a.pn) && Data(b.pn)
                  && t.k.pte[a].page == t.k.pte[b].page && W in t.k.pte[a].perm
      ensures InFlight(t, a, b)
    {
      assert a != sl && b != sl;
      assert InFlight(s, a, b);
    }
  }

  lemma RemapForks(s: Sys, t: Sys, e: EnvId)
    requires Inv(s) && RemapStep(s, t, e)
    ensures Forks(t)
  {
    assert FaultOk(s, e) && ForkOk(s, e);
    forall p | p in t.code ensures ForkOk(t, p) {
      assert ForkOk(s, p);
      if p != e { ForkFrame(s, t, p); }
      else if ChildOf(s.code[e].fork) != 0 { assert HasPages(t.k, e, ChildOf(s.code[e].fork), Frontier(s.code[e].fork)); }
    }
  }

  lemma RemapFaults(s: Sys, t: Sys, e: EnvId)
    requires Inv(s) && RemapStep(s, t, e)
    ensures Faults(t)
  {
    assert FaultOk(s, e);
    forall x | x in t.code ensures FaultOk(t, x) {
      assert FaultOk(s, x);
      if x != e { FaultFrame(s, t, x); }
    }
  }

  lemma KeepRemap(s: Sys, t: Sys, e: EnvId)
    requires Inv(s) && RemapStep(s, t, e)
    ensures Inv(t)
  {
    RemapWriter(s, t, e);
    RemapForks(s, t, e);
    RemapFaults(s, t, e);
    assert FaultOk(s, e);
    forall c | c in t.k.envs ensures ChildOk(t, c) { assert ChildOk(s, c); ChildFrame(s, t, c); }
  }

  /** One byte of pgfault's memmove. */
  ghost predicate CopyStep(s: Sys, t: Sys, e: EnvId)
  {
    && Live(s, e) && s.code[e].fault.AtCopy? && s.code[e].fault.i < PGSIZE
    && Slot(e, PFPN) in s.k.pte && Slot(e, s.code[e].fault.pn) in s.k.pte
    && t.code == s.code[e := s.code[e].(fault := AtCopy(s.code[e].fault.pn, s.code[e].fault.i + 1))]
    && t.k == WriteByte(s.k, s.k.pte[Slot(e, PFPN)].page, s.code[e].fault.i,
                        Content(s.k, s.k.pte[Slot(e, s.code[e].fault.pn)].page)[s.code[e].fault.i])
  }

  lemma CopyOwn(s: Sys, t: Sys, e: EnvId)
    requires Inv(s) && CopyStep(s, t, e)
    ensures FaultOk(t, e)
  {
    assert FaultOk(s, e);
  }

  lemma CopyNextByte(s: Sys, t: Sys, e: EnvId)
    requires Inv(s) && e in s.code && CopyOk(s, e) && CopyStep(s, t, e)
    ensures CopyOk(t, e)
  {
    assert FaultOk(s, e);
    var i := s.code[e].fault.i;
    var src := Content(s.k, s.k.pte[Slot(e, s.code[e].fault.pn)].page);
    var dst := Content(s.k, s.k.pte[Slot(e, PFPN)].page);
    assert Slot(e, s.code[e].fault.pn) != Slot(e, PFPN);
    assert src[..i + 1] == src[..i] + [src[i]];
    assert dst[i := src[i]][..i + 1] == dst[..i] + [src[i]];
  }

  lemma CopyFaults(s: Sys, t: Sys, e: EnvId)
    requires Inv(s) && CopyStep(s, t, e)
    ensures Faults(t)
  {
    assert FaultOk(s, e);
    CopyOwn(s, t, e);
    forall x | x in t.code ensures FaultOk(t, x) { assert FaultOk(s, x); if x != e { FaultFrame(s, t, x); } }
  }

  lemma KeepCopy(s: Sys, t: Sys, e: EnvId)
    requires Inv(s) && CopyStep(s, t, e)
    ensures Inv(t)
  {
    CopyFaults(s, t, e);
    WriterFrame(s, t);
    forall p | p in t.code ensures ForkOk(t, p) { CopyForks(s, t, e, p); }
    CopyChildren(s, t, e);
  }

  lemma CopyChildren(s: Sys, t: Sys, e: EnvId)
    requires Inv(s) && CopyStep(s, t, e)
    ensures Children(t)
  {
    forall c | c in t.k.envs ensures ChildOk(t, c) { assert ChildOk(s, c); ChildFrame(s, t, c); }
  }

  lemma CopyForks(s: Sys, t: Sys, e: EnvId, p: EnvId)
    requires Inv(s) && CopyStep(s, t, e) && p in t.code
    ensures ForkOk(t, p)
  {
    assert ForkOk(s, p);
    ForkFrame(s, t, p);
  }

  /** duppage's first call: the parent's page goes into the child, without write permission. */
  ghost predicate DupChildStep(s: Sys, t: Sys, e: EnvId)
  {
    if !Live(s, e) then false
    else
      var f := s.code[e].fork;
      && f.AtMapChild? && Slot(e, f.pn) in s.k.pte
      && t.k == State(s.k.mem, s.k.pte[Slot(f.child, f.pn) := Pte(s.k.pte[Slot(e, f.pn)].page, if f.cow then {U, P, COW} else {U, P})],
                      s.k.envs)
      && t.code == s.code[e := s.code[e].(fork :=
           if f.cow then AtMapSelf(f.child, f.pn, W in s.k.pte[Slot(e, f.pn)].perm) else AtPage(f.child, f.pn + 1))]
      && s.code[e].fault == NoFault
  }

  lemma DupChildWriter(s: Sys, t: Sys, e: EnvId)
    requires Inv(s) && DupChildStep(s, t, e)
    ensures SingleWriter(t) && Shape(t)
  {
    var f := s.code[e].fork;
    assert ForkOk(s, e);
    var mine, its := Slot(e, f.pn), Slot(f.child, f.pn);
    forall a, b | a in t.k.pte && b in t.k.pte && a != b && Data(a.pn) && Data(b.pn)
                  && t.k.pte[a].page == t.k.pte[b].page && W in t.k.pte[a].perm
      ensures InFlight(t, a, b)
    {
      assert a != its;
      if b == its {
        LiveNotInFlight(s, a, mine);
      } else {
        assert InFlight(s, a, b);
      }
    }
  }

  lemma DupChildForks(s: Sys, t: Sys, e: EnvId)
    requires Inv(s) && DupChildStep(s, t, e)
    ensures Forks(t)
  {
    forall p | p in t.code ensures ForkOk(t, p) {
      if p != e { DupChildOther(s, t, e, p); } else { DupChildOwn(s, t, e); }
    }
  }

  lemma DupChildOwn(s: Sys, t: Sys, e: EnvId)
    requires Inv(s) && DupChildStep(s, t, e)
    ensures ForkOk(t, e)
  {
    var f := s.code[e].fork;
    assert ForkOk(s, e);
    assert HasPages(t.k, e, f.child, f.pn + 1);
  }

  lemma DupChildOther(s: Sys, t: Sys, e: EnvId, p: EnvId)
    requires Inv(s) && DupChildStep(s, t, e) && p in t.code && p != e
    ensures ForkOk(t, p)
  {
    assert ForkOk(s, e) && ForkOk(s, p);
    ForkFrame(s, t, p);
  }

  lemma DupChildFaults(s: Sys, t: Sys, e: EnvId)
    requires Inv(s) && DupChildStep(s, t, e)
    ensures Faults(t)
  {
    assert ForkOk(s, e);
    forall x | x in t.code ensures FaultOk(t, x) {
      assert FaultOk(s, x);
      if x != e { FaultFrame(s, t, x); }
    }
  }

  lemma KeepDupChild(s: Sys, t: Sys, e: EnvId)
    requires Inv(s) && DupChildStep(s, t, e)
    ensures Inv(t)
  {
    DupChildWriter(s, t, e);
    DupChildForks(s, t, e);
    DupChildFaults(s, t, e);
    DupChildChildren(s, t, e);
  }

  lemma DupChildChildren(s: Sys, t: Sys, e: EnvId)
    requires Inv(s) && DupChildStep(s, t, e)
    ensures Children(t)
  {
    assert ForkOk(s, e);
    forall c | c in t.k.envs ensures ChildOk(t, c) {
      assert ChildOk(s, c);
      if c != s.code[e].fork.child { ChildFrame(s, t, c); }
    }
  }

  /** duppage's second call: the parent's own mapping becomes copy-on-write. */
  ghost predicate DupSelfStep(s: Sys, t: Sys, e: EnvId)
  {
    if !Live(s, e) then false
    else
      var f := s.code[e].fork;
      && f.AtMapSelf? && Slot(e, f.pn) in s.k.pte
      && t.k == State(s.k.mem, s.k.pte[Slot(e, f.pn) := Pte(s.k.pte[Slot(e, f.pn)].page, {U, P, COW})], s.k.envs)
      && t.code == s.code[e := s.code[e].(fork := AtPage(f.child, f.pn + 1))]
      && s.code[e].fault == NoFault
  }

  lemma DupSelfWriter(s: Sys, t: Sys, e: EnvId)
    requires Inv(s) && DupSelfStep(s, t, e)
    ensures SingleWriter(t) && Shape(t)
  {
    forall a, b | a in t.k.pte && b in t.k.pte && a != b && Data(a.pn) && Data(b.pn)
                  && t.k.pte[a].page == t.k.pte[b].page && W in t.k.pte[a].perm
      ensures InFlight(t, a, b)
    {
      assert InFlight(s, a, b);
    }
  }

  lemma DupSelfForks(s: Sys, t: Sys, e: EnvId)
    requires Inv(s) && DupSelfStep(s, t, e)
    ensures Forks(t)
  {
    var f := s.code[e].fork;
    assert ForkOk(s, e);
    forall p | p in t.code ensures ForkOk(t, p) {
      assert ForkOk(s, p);
      if p != e { ForkFrame(s, t, p); } else { assert HasPages(t.k, e, f.child, f.pn + 1); }
    }
  }

  lemma KeepDupSelf(s: Sys, t: Sys, e: EnvId)
    requires Inv(s) && DupSelfStep(s, t, e)
    ensures Inv(t)
  {
    DupSelfWriter(s, t, e);
    DupSelfForks(s, t, e);
    DupSelfFaults(s, t, e);
    DupSelfChildren(s, t, e);
  }

  lemma DupSelfFaults(s: Sys, t: Sys, e: EnvId)
    requires Inv(s) && DupSelfStep(s, t, e)
    ensures Faults(t)
  {
    assert ForkOk(s, e);
    forall x | x in t.code ensures FaultOk(t, x) { assert FaultOk(s, x); if x != e { FaultFrame(s, t, x); } }
  }

  lemma DupSelfChildren(s: Sys, t: Sys, e: EnvId)
    requires Inv(s) && DupSelfStep(s, t, e)
    ensures Children(t)
  {
    assert ForkOk(s, e);
    forall c | c in t.k.envs ensures ChildOk(t, c) { assert ChildOk(s, c); ChildFrame(s, t, c); }
  }

  /** sys_exofork: a new environment with no mapping below UTOP, not runnable, not receiving. */
  ghost predicate ExoforkStep(s: Sys, t: Sys, e: EnvId, c: EnvId, stale: Env)
  {
    && Live(s, e) && s.code[e].fork == AtExofork && NewId(s.k, c)
    && t.k == State(s.k.mem, s.k.pte, s.k.envs[c := NewEnv(e, stale)])
    && t.code == s.code[e := s.code[e].(fork := AtPage(c, FIRST))][c := Code(NotForking, NoFault, s.code[e].handler)]
    && s.code[e].fault == NoFault
  }

  lemma ExoforkForks(s: Sys, t: Sys, e: EnvId, c: EnvId, stale: Env)
    requires Inv(s) && ExoforkStep(s, t, e, c, stale)
    ensures Forks(t)
  {
    assert ForkOk(s, e);
    forall p | p in t.code ensures ForkOk(t, p) {
      if p != c { assert ForkOk(s, p); if p != e { ForkFrame(s, t, p); } }
    }
  }

  lemma ExoforkChildren(s: Sys, t: Sys, e: EnvId, c: EnvId, stale: Env)
    requires Inv(s) && ExoforkStep(s, t, e, c, stale)
    ensures Children(t)
  {
    if s.k.envs[e].parent in s.code { assert ForkOk(s, s.k.envs[e].parent); }
    forall x | x in t.k.envs ensures ChildOk(t, x) {
      if x != c {
        assert ChildOk(s, x);
        assert s.k.envs[x].parent in t.k.envs ==> s.k.envs[x].parent in s.k.envs;
      }
    }
  }

  lemma KeepExofork(s: Sys, t: Sys, e: EnvId, c: EnvId, stale: Env)
    requires Inv(s) && ExoforkStep(s, t, e, c, stale)
    ensures Inv(t)
  {
    ExoforkForks(s, t, e, c, stale);
    ExoforkChildren(s, t, e, c, stale);
    WriterFrame(s, t);
    forall x | x in t.code ensures FaultOk(t, x) { if x != c { assert FaultOk(s, x); if x != e { FaultFrame(s, t, x); } } }
  }

  /** An environment that exits takes its mappings with it. */
  ghost predicate ExitStep(s: Sys, t: Sys, e: EnvId)
  {
    && Live(s, e) && s.code[e] == Code(NotForking, NoFault, s.code[e].handler)
    && t.k == EnvFree(s.k, e) && t.code == s.code - {e}
  }

  lemma ExitForks(s: Sys, t: Sys, e: EnvId)
    requires Inv(s) && ExitStep(s, t, e)
    ensures Forks(t)
  {
    forall p | p in t.code ensures ForkOk(t, p) {
      assert ForkOk(s, p);
      ForkFrame(s, t, p);
    }
  }

  lemma ExitChildren(s: Sys, t: Sys, e: EnvId)
    requires Inv(s) && ExitStep(s, t, e)
    ensures Children(t)
  {
    forall c | c in t.k.envs ensures ChildOk(t, c) {
      assert ChildOk(s, c);
      var p := s.k.envs[c].parent;
      if p in t.k.envs && !Building(s, p, c) { assert HasPages(t.k, p, c, XPN); }
    }
  }

  lemma KeepExit(s: Sys, t: Sys, e: EnvId)
    requires Inv(s) && ExitStep(s, t, e)
    ensures Inv(t)
  {
    ExitForks(s, t, e);
    ExitChildren(s, t, e);
    assert forall a, b :: InFlight(s, a, b) ==> InFlight(t, a, b);
    forall x | x in t.code ensures FaultOk(t, x) { assert FaultOk(s, x); FaultFrame(s, t, x); }
  }
}
