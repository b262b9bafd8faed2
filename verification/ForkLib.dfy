/** lib/fork.c and user/dumbfork.c as the calling environment runs them undisturbed: the page tables and pages they
    leave behind, and that both give the child the parent's memory. */
module ForkLib {
  import opened Types
  import opened Layout
  import opened Ipc
  import opened Kernel
  import opened Cow
  import M = Machine

  /** Panic is the panic a failing call leads to. Below, plenty says that there is memory for every page table needed;
      without it each call may or may not find some. */
  datatype Exit<T> = Ok(value: T) | Panic

  function Lookup(k: State, sl: Slot): Option<Pte> { if sl in k.pte then Some(k.pte[sl]) else None }

  function ContentAt(k: State, sl: Slot): PageData
    requires sl in k.pte
  {
    Content(k, k.pte[sl].page)
  }

  const UPW: Perm := {U, P, W}

  // ---------- pgfault ----------

  /** The state after pgfault on page pn: a private writable copy in place of the page, and the same page at PFTEMP. If
      the page is PFTEMP itself, its contents are gone before they can be copied. */
  function Resolved(k: State, e: EnvId, pn: nat, page: PageId): State
    requires Slot(e, pn) in k.pte
  {
    var copy := Pte(page, UPW);
    var data := if pn == PFPN then ZeroPage() else ContentAt(k, Slot(e, pn));
    State(k.mem[page := data], k.pte[Slot(e, PFPN) := copy][Slot(e, pn) := copy], k.envs)
  }

  method Memmove(m: M.Kernel, dst: nat, src: nat)
    requires Aligned(dst) && Aligned(src)
    requires Slot(m.curenv, PGNUM(dst)) in m.pte && Slot(m.curenv, PGNUM(src)) in m.pte
    modifies m`mem
    ensures m.mem == old(m.mem)[m.pte[Slot(m.curenv, PGNUM(dst))].page := ContentAt(old(m.Now()), Slot(m.curenv, PGNUM(src)))]
  {
    var d, s := m.pte[Slot(m.curenv, PGNUM(dst))].page, m.pte[Slot(m.curenv, PGNUM(src))].page;
    ghost var from := Content(m.Now(), s);
    var i := 0;
    while i < PGSIZE
      invariant 0 <= i <= PGSIZE
      invariant Content(m.Now(), s) == from
      invariant Content(m.Now(), d)[..i] == from[..i]
      invariant m.mem == old(m.mem)[d := Content(m.Now(), d)] || (i == 0 && m.mem == old(m.mem))
    {
      assert PGNUM(src + i) == PGNUM(src) && PGOFF(src + i) == i && PGNUM(dst + i) == PGNUM(dst) && PGOFF(dst + i) == i;
      ghost var was := Content(m.Now(), d);
      m.Poke(dst + i, m.Peek(src + i));
      assert was[i := from[i]][..i + 1] == was[..i] + [from[i]];
      assert d == s ==> was[i := from[i]] == was;
      i := i + 1;
    }
    assert Content(m.Now(), d) == Content(m.Now(), d)[..PGSIZE] && from == from[..PGSIZE];
  }

  method PgFault(m: M.Kernel, faultVa: nat, write: bool, page: Option<PageId>, tables: bool) returns (r: Exit<()>)
    requires m.curenv in m.envs && Allocatable(m.Now(), page)
    modifies m`mem, m`pte
    ensures r.Ok? <==>
      && write && old(Slot(m.curenv, PGNUM(faultVa)) in m.pte && COW in m.pte[Slot(m.curenv, PGNUM(faultVa))].perm)
      && page.Some? && tables && PGNUM(faultVa) < PGNUM(UTOP)
    ensures r.Ok? ==> m.Now() == Resolved(old(m.Now()), m.curenv, PGNUM(faultVa), page.value)
  {
    var e := m.curenv;
    var sl := Slot(e, PGNUM(faultVa));
    if !write || sl !in m.pte || COW !in m.pte[sl].perm { return Panic; }
    var err := m.SysPageAlloc(0, PFTEMP, UPW, page, tables);
    if err != None { return Panic; }
    var addr := faultVa - faultVa % PGSIZE;
    assert PGNUM(addr) == PGNUM(faultVa) && PGNUM(PFTEMP) == PFPN;
    assert UPW + {P} == UPW;
    ghost var old0 := old(m.Now());
    assert old0.pte[sl].page != page.value;
    Memmove(m, PFTEMP, addr);
    err := m.SysPageMap(0, PFTEMP, 0, addr, UPW, tables);
    if err != None { return Panic; }
    return Ok(());
  }

  /** What pgfault is for: e's memory reads the same everywhere but at PFTEMP, and the page is now e's to write. */
  lemma ResolvedMeans(k: State, e: EnvId, pn: nat, page: PageId)
    requires Slot(e, pn) in k.pte && !Referenced(k, page) && pn != PFPN
    ensures var t := Resolved(k, e, pn, page);
      && (forall sl :: sl in k.pte && sl != Slot(e, PFPN) ==> sl in t.pte && ContentAt(t, sl) == ContentAt(k, sl))
      && W in t.pte[Slot(e, pn)].perm
      && (forall sl :: sl in t.pte && t.pte[sl].page == t.pte[Slot(e, pn)].page ==> sl == Slot(e, pn) || sl == Slot(e, PFPN))
  {
    assert forall sl :: sl in k.pte ==> k.pte[sl].page != page;
  }

  /** A copy-on-write page at PFTEMP itself is lost: pgfault leaves zeros there, and changes nothing else e maps. */
  lemma ResolvedAtPftemp(k: State, e: EnvId, page: PageId)
    requires Slot(e, PFPN) in k.pte && !Referenced(k, page)
    ensures var t := Resolved(k, e, PFPN, page);
      && ContentAt(t, Slot(e, PFPN)) == ZeroPage() && t.pte[Slot(e, PFPN)] == Pte(page, UPW)
      && (forall sl :: sl in k.pte && sl != Slot(e, PFPN) ==> sl in t.pte && ContentAt(t, sl) == ContentAt(k, sl))
  {
    assert forall sl :: sl in k.pte ==> k.pte[sl].page != page;
  }

  // ---------- duppage and fork ----------

  /** The permission duppage leaves on both sides of a shared page. */
  function SharedPerm(perm: Perm): Perm { if W in perm || COW in perm then {U, P, COW} else {U, P} }

  /** A page-table entry after the pages below upto have been duplicated from e into c. */
  function Duplicated(k: State, e: EnvId, c: EnvId, upto: nat, sl: Slot): Option<Pte>
  {
    var mine := Lookup(k, Slot(e, sl.pn));
    if Region(sl.pn) && sl.pn < upto && mine.Some? && U in mine.value.perm then
      if sl.env == c then Some(Pte(mine.value.page, SharedPerm(mine.value.perm)))
      else if sl.env == e && (W in mine.value.perm || COW in mine.value.perm)
      then Some(Pte(mine.value.page, SharedPerm(mine.value.perm)))
      else Lookup(k, sl)
    else Lookup(k, sl)
  }

  method DupPage(m: M.Kernel, child: EnvId, pn: nat, plenty: bool) returns (r: Exit<()>)
    requires m.curenv in m.envs && child in m.envs && child != 0 && m.envs[child].parent == m.curenv
    requires Region(pn) && Slot(m.curenv, pn) in m.pte && child != m.curenv
    modifies m`pte
    ensures r.Ok? ==> m.pte == AfterDup(old(m.Now()), m.curenv, child, pn)
    ensures r.Ok? ==>
      var was := old(m.pte[Slot(m.curenv, pn)]);
      var cow := Pte(was.page, {U, P, COW});
      m.pte == if W in was.perm || COW in was.perm
               then old(m.pte)[Slot(child, pn) := cow][Slot(m.curenv, pn) := cow]
               else old(m.pte)[Slot(child, pn) := Pte(was.page, {U, P})]
    ensures plenty ==> r.Ok?
  {
    var addr := pn * PGSIZE;
    assert PGNUM(addr) == pn && Aligned(addr) && addr < UTOP;
    var pte := m.pte[Slot(m.curenv, PGNUM(addr))];
    var tables: bool :| plenty ==> tables;
    if W in pte.perm || COW in pte.perm {
      assert {U, P, COW} + {P} == {U, P, COW};
      var err := m.SysPageMap(0, addr, child, addr, {U, P, COW}, tables);
      if err != None { return Panic; }
      tables :| plenty ==> tables;
      err := m.SysPageMap(0, addr, 0, addr, {U, P, COW}, tables);
      if err != None { return Panic; }
    } else {
      assert {U, P} + {P} == {U, P};
      var err := m.SysPageMap(0, addr, child, addr, {U, P}, tables);
      if err != None { return Panic; }
    }
    return Ok(());
  }

  /** The page tables after duppage has done page pn. */
  function AfterDup(k: State, e: EnvId, c: EnvId, pn: nat): map<Slot, Pte>
    requires Slot(e, pn) in k.pte
  {
    var pte := k.pte[Slot(e, pn)];
    var both := k.pte[Slot(c, pn) := Pte(pte.page, SharedPerm(pte.perm))];
    if W in pte.perm || COW in pte.perm then both[Slot(e, pn) := Pte(pte.page, SharedPerm(pte.perm))] else both
  }

  lemma DuplicatedStep(k: State, t: State, u: State, e: EnvId, c: EnvId, pn: nat)
    requires e != c && Region(pn)
    requires forall sl :: Lookup(t, sl) == Duplicated(k, e, c, pn, sl)
    requires u.pte == if Slot(e, pn) in t.pte && U in t.pte[Slot(e, pn)].perm then AfterDup(t, e, c, pn) else t.pte
    ensures forall sl :: Lookup(u, sl) == Duplicated(k, e, c, pn + 1, sl)
  {
    assert Lookup(t, Slot(e, pn)) == Lookup(k, Slot(e, pn));
    forall sl ensures Lookup(u, sl) == Duplicated(k, e, c, pn + 1, sl) {
      assert Lookup(t, sl) == Duplicated(k, e, c, pn, sl);
    }
  }

  /** set_pgfault_handler, given whether a handler is installed already. */
  method SetPgfaultHandler(m: M.Kernel, installed: bool, page: Option<PageId>, tables: bool) returns (r: Exit<()>)
    requires m.curenv in m.envs
    modifies m
    ensures m.curenv == old(m.curenv)
    ensures r.Ok? ==> m.Now() == WithHandler(old(m.Now()), m.curenv, installed, page)
    ensures r.Ok? ==>
      if installed then m.Now() == old(m.Now())
      else
        && page.Some? && m.pte == old(m.pte)[Slot(m.curenv, XPN) := Pte(page.value, {U, P, W})]
        && m.mem == old(m.mem)[page.value := ZeroPage()] && m.envs.Keys == old(m.envs).Keys
        && m.envs[m.curenv] == old(m.envs[m.curenv]).(upcall := UPCALL)
    ensures r.Ok? <==> installed || (page.Some? && tables)
  {
    if !installed {
      assert UPW + {P} == UPW && PGNUM(UXSTACKTOP - PGSIZE) == XPN;
      var err := m.SysPageAlloc(0, UXSTACKTOP - PGSIZE, UPW, page, tables);
      if err != None { return Panic; }
      err := m.SysEnvSetPgfaultUpcall(0, UPCALL);
    }
    return Ok(());
  }

  /** e with an exception stack and the upcall, if it had none. */
  function WithHandler(k: State, e: EnvId, installed: bool, page: Option<PageId>): State
    requires e in k.envs
  {
    if installed || page.None? then k
    else State(k.mem[page.value := ZeroPage()], k.pte[Slot(e, XPN) := Pte(page.value, UPW)],
               k.envs[e := k.envs[e].(upcall := UPCALL)])
  }

  /** t is k after e forked c: every user page in [UTEXT, UXSTACKTOP - PGSIZE) shared, nothing written but the
      child's new exception stack, everything else as it was, and c runnable with the upcall. */
  ghost predicate Forked(k: State, t: State, e: EnvId, c: EnvId, stack: PageId, stale: Env)
  {
    && t.mem == k.mem[stack := ZeroPage()]
    && (forall sl :: Lookup(t, sl) == if sl == Slot(c, XPN) then Some(Pte(stack, UPW)) else Duplicated(k, e, c, XPN, sl))
    && t.envs == k.envs[c := NewEnv(e, stale).(upcall := UPCALL, port := NewEnv(e, stale).port.(status := Runnable))]
  }

  /** fork's loop over the pages of [UTEXT, UXSTACKTOP - PGSIZE). */
  method DupAll(m: M.Kernel, child: EnvId, plenty: bool) returns (r: Exit<()>)
    requires m.curenv in m.envs && child in m.envs && child != 0 && m.envs[child].parent == m.curenv && child != m.curenv
    modifies m`pte
    ensures r.Ok? ==> forall sl :: Lookup(m.Now(), sl) == Duplicated(old(m.Now()), m.curenv, child, XPN, sl)
    ensures plenty ==> r.Ok?
  {
    ghost var k := m.Now();
    var e, addr := m.curenv, UTEXT;
    assert PGNUM(UTEXT) == FIRST;
    while addr < UXSTACKTOP - PGSIZE
      invariant UTEXT <= addr <= UXSTACKTOP - PGSIZE && Aligned(addr)
      invariant forall sl :: Lookup(m.Now(), sl) == Duplicated(k, e, child, PGNUM(addr), sl)
    {
      var pn := PGNUM(addr);
      assert PGNUM(addr + PGSIZE) == pn + 1;
      ghost var before := m.Now();
      if Slot(e, pn) in m.pte && U in m.pte[Slot(e, pn)].perm {
        var dup := DupPage(m, child, pn, plenty);
        if dup.Panic? { return Panic; }
      }
      DuplicatedStep(k, before, m.Now(), e, child, pn);
      addr := addr + PGSIZE;
    }
    assert PGNUM(addr) == XPN;
    return Ok(());
  }

  method Fork(m: M.Kernel, installed: bool, xstack: Option<PageId>, child: Option<EnvId>, stale: Env, cstack: Option<PageId>,
              plenty: bool)
    returns (r: Exit<EnvId>)
    requires m.curenv in m.envs && 0 !in m.envs
    requires child.Some? ==> NewId(m.Now(), child.value) && forall sl :: sl in m.pte ==> sl.env != child.value
    modifies m
    ensures m.curenv == old(m.curenv)
    ensures r.Ok? ==>
      && child == Some(r.value) && cstack.Some?
      && Forked(WithHandler(old(m.Now()), m.curenv, installed, xstack), m.Now(), m.curenv, r.value, cstack.value, stale)
    ensures plenty && child.Some? && cstack.Some? && (installed || xstack.Some?) ==> r.Ok?
  {
    var tables: bool :| plenty ==> tables;
    var ready := SetPgfaultHandler(m, installed, xstack, tables);
    if ready.Panic? { return Panic; }
    ghost var k := m.Now();
    tables :| plenty ==> tables;
    var err := m.SysExofork(child, stale, tables);
    if err != None { return Panic; }
    var c := child.value;
    var dup := DupAll(m, c, plenty);
    if dup.Panic? { return Panic; }
    assert forall sl :: Lookup(m.Now(), sl) == Duplicated(k, m.curenv, c, XPN, sl);
    var started := StartChild(m, c, cstack, plenty);
    if started.Panic? { return Panic; }
    return Ok(c);
  }

  /** The end of fork: the child's exception stack, its upcall, its status. */
  method StartChild(m: M.Kernel, c: EnvId, stack: Option<PageId>, plenty: bool) returns (r: Exit<()>)
    requires m.curenv in m.envs && c in m.envs && c != 0 && m.envs[c].parent == m.curenv
    modifies m
    ensures m.curenv == old(m.curenv)
    ensures r.Ok? ==>
      && stack.Some? && m.mem == old(m.mem)[stack.value := ZeroPage()]
      && m.pte == old(m.pte)[Slot(c, XPN) := Pte(stack.value, UPW)]
      && m.envs == old(m.envs)[c := old(m.envs)[c].(upcall := UPCALL, port := old(m.envs)[c].port.(status := Runnable))]
    ensures plenty && stack.Some? ==> r.Ok?
  {
    assert PGNUM(UXSTACKTOP - PGSIZE) == XPN && UPW + {P} == UPW;
    var tables: bool :| plenty ==> tables;
    var err := m.SysPageAlloc(c, UXSTACKTOP - PGSIZE, UPW, stack, tables);
    if err != None { return Panic; }
    err := m.SysEnvSetPgfaultUpcall(c, UPCALL);
    err := m.SysEnvSetStatus(c, Runnable);
    if err != None { return Panic; }
    return Ok(());
  }

  /** What fork is for: the child reads the parent's memory, nobody else's memory changes, both sides lose write access
      to every page they share, and the child maps nothing else. */
  lemma ForkedMeans(k: State, t: State, e: EnvId, c: EnvId, stack: PageId, stale: Env)
    requires Forked(k, t, e, c, stack, stale) && e != c
    requires !Referenced(k, stack) && forall sl :: sl in k.pte ==> sl.env != c
    ensures forall pn :: Region(pn) && Slot(e, pn) in k.pte && U in k.pte[Slot(e, pn)].perm ==>
      && Slot(c, pn) in t.pte && Slot(e, pn) in t.pte
      && ContentAt(t, Slot(c, pn)) == ContentAt(k, Slot(e, pn))
      && W !in t.pte[Slot(c, pn)].perm && W !in t.pte[Slot(e, pn)].perm
      && t.pte[Slot(c, pn)].page == t.pte[Slot(e, pn)].page
    ensures forall sl: Slot :: sl.env != c ==>
      && (sl in k.pte <==> sl in t.pte)
      && (sl in k.pte && sl in t.pte ==> ContentAt(t, sl) == ContentAt(k, sl))
    ensures forall pn :: Slot(c, pn) in t.pte ==>
      pn == XPN || (Region(pn) && Slot(e, pn) in k.pte && U in k.pte[Slot(e, pn)].perm)
  {
    assert forall sl :: sl in k.pte ==> k.pte[sl].page != stack;
    forall sl ensures Lookup(t, sl) == if sl == Slot(c, XPN) then Some(Pte(stack, UPW)) else Duplicated(k, e, c, XPN, sl) {}
    forall sl: Slot | sl.env != c
      ensures (sl in k.pte <==> sl in t.pte) && (sl in k.pte && sl in t.pte ==> ContentAt(t, sl) == ContentAt(k, sl))
    {
      assert Lookup(t, sl) == Duplicated(k, e, c, XPN, sl);
    }
    forall pn | Region(pn) && Slot(e, pn) in k.pte && U in k.pte[Slot(e, pn)].perm
      ensures Slot(c, pn) in t.pte && Slot(e, pn) in t.pte
        && ContentAt(t, Slot(c, pn)) == ContentAt(k, Slot(e, pn))
        && W !in t.pte[Slot(c, pn)].perm && W !in t.pte[Slot(e, pn)].perm
        && t.pte[Slot(c, pn)].page == t.pte[Slot(e, pn)].page
    {
      assert Lookup(t, Slot(c, pn)) == Duplicated(k, e, c, XPN, Slot(c, pn));
      assert Lookup(t, Slot(e, pn)) == Duplicated(k, e, c, XPN, Slot(e, pn));
    }
    forall pn | Slot(c, pn) in t.pte
      ensures pn == XPN || (Region(pn) && Slot(e, pn) in k.pte && U in k.pte[Slot(e, pn)].perm)
    {
      assert Lookup(k, Slot(c, pn)) == None;
      assert pn != XPN ==> Lookup(t, Slot(c, pn)) == Duplicated(k, e, c, XPN, Slot(c, pn));
    }
  }

  /** Exactly which permissions fork leaves: both sides of a page that was writable or copy-on-write are copy-on-write,
      the child's side of any other user page is read-only, and no other entry of anybody's changes. */
  lemma ForkedPerms(k: State, t: State, e: EnvId, c: EnvId, stack: PageId, stale: Env)
    requires Forked(k, t, e, c, stack, stale) && e != c && forall sl :: sl in k.pte ==> sl.env != c
    ensures forall pn :: Region(pn) && Slot(e, pn) in k.pte && U in k.pte[Slot(e, pn)].perm ==>
      var was := k.pte[Slot(e, pn)];
      && Lookup(t, Slot(c, pn)) == Some(Pte(was.page, if W in was.perm || COW in was.perm then {U, P, COW} else {U, P}))
      && Lookup(t, Slot(e, pn)) == Some(if W in was.perm || COW in was.perm then Pte(was.page, {U, P, COW}) else was)
    ensures forall sl: Slot :: sl.env != c && !(sl.env == e && Region(sl.pn) && sl in k.pte && U in k.pte[sl].perm) ==>
      Lookup(t, sl) == Lookup(k, sl)
    ensures Lookup(t, Slot(c, XPN)) == Some(Pte(stack, {U, P, W})) && Content(t, stack) == ZeroPage()
  {
    forall pn | Region(pn) && Slot(e, pn) in k.pte && U in k.pte[Slot(e, pn)].perm
      ensures var was := k.pte[Slot(e, pn)];
        && Lookup(t, Slot(c, pn)) == Some(Pte(was.page, if W in was.perm || COW in was.perm then {U, P, COW} else {U, P}))
        && Lookup(t, Slot(e, pn)) == Some(if W in was.perm || COW in was.perm then Pte(was.page, {U, P, COW}) else was)
    {
      assert Lookup(t, Slot(c, pn)) == Duplicated(k, e, c, XPN, Slot(c, pn));
      assert Lookup(t, Slot(e, pn)) == Duplicated(k, e, c, XPN, Slot(e, pn));
    }
    forall sl: Slot | sl.env != c && !(sl.env == e && Region(sl.pn) && sl in k.pte && U in k.pte[sl].perm)
      ensures Lookup(t, sl) == Lookup(k, sl)
    {
      assert Lookup(t, sl) == Duplicated(k, e, c, XPN, sl);
    }
  }

  /** The child is runnable, e's child, returns 0 from its exofork, and has the upcall; nobody else's environment changes. */
  lemma ForkedEnvs(k: State, t: State, e: EnvId, c: EnvId, stack: PageId, stale: Env)
    requires Forked(k, t, e, c, stack, stale)
    ensures t.envs.Keys == k.envs.Keys + {c} && forall x :: x in k.envs && x != c ==> t.envs[x] == k.envs[x]
    ensures var env := t.envs[c];
      env.port.status == Runnable && env.parent == e && env.port.eax == 0 && !env.port.recving && env.upcall == UPCALL
  {
  }

  /** From fork to the first store: on either side of a page that was writable or copy-on-write, pgfault meets its
      condition, and leaves that side a writable page of its own that reads as the parent's did; the other side reads on. */
  lemma FirstStore(k: State, t: State, e: EnvId, c: EnvId, stack: PageId, stale: Env, x: EnvId, y: EnvId, pn: nat, page: PageId)
    requires Forked(k, t, e, c, stack, stale) && e != c && forall sl :: sl in k.pte ==> sl.env != c
    requires !Referenced(k, stack) && !Referenced(t, page)
    requires Region(pn) && Slot(e, pn) in k.pte && U in k.pte[Slot(e, pn)].perm
    requires W in k.pte[Slot(e, pn)].perm || COW in k.pte[Slot(e, pn)].perm
    requires (x == e && y == c) || (x == c && y == e)
    ensures Slot(x, pn) in t.pte && COW in t.pte[Slot(x, pn)].perm && W !in t.pte[Slot(x, pn)].perm
    ensures var u := Resolved(t, x, pn, page);
      && Slot(x, pn) in u.pte && W in u.pte[Slot(x, pn)].perm && Slot(y, pn) in u.pte
      && ContentAt(u, Slot(x, pn)) == ContentAt(k, Slot(e, pn)) == ContentAt(u, Slot(y, pn))
      && u.pte[Slot(x, pn)].page != u.pte[Slot(y, pn)].page
  {
    ForkedPerms(k, t, e, c, stack, stale);
    ForkedMeans(k, t, e, c, stack, stale);
    assert Lookup(t, Slot(c, pn)).Some? && Lookup(t, Slot(e, pn)).Some?;
    ResolvedMeans(t, x, pn, page);
  }

  // ---------- dumbfork ----------

  const TEMPPN: nat := PGNUM(UTEMP)

  /** The state after dumbfork's duppage copied page pn of e into the given new page of c, through UTEMP. */
  function Copied(k: State, e: EnvId, c: EnvId, pn: nat, page: PageId): State
    requires Slot(e, pn) in k.pte
  {
    State(k.mem[page := ContentAt(k, Slot(e, pn))], k.pte[Slot(c, pn) := Pte(page, UPW)] - {Slot(e, TEMPPN)}, k.envs)
  }

  method DumbDupPage(m: M.Kernel, child: EnvId, addr: nat, page: Option<PageId>, plenty: bool) returns (r: Exit<()>)
    requires m.curenv in m.envs && child in m.envs && child != 0 && m.envs[child].parent == m.curenv && child != m.curenv
    requires Aligned(addr) && UTEXT <= addr < UTOP && Slot(m.curenv, PGNUM(addr)) in m.pte
    requires Allocatable(m.Now(), page)
    modifies m`mem, m`pte
    ensures r.Ok? ==> page.Some? && m.Now() == Copied(old(m.Now()), m.curenv, child, PGNUM(addr), page.value)
    ensures plenty && page.Some? ==> r.Ok?
  {
    assert UPW + {P} == UPW && PGNUM(UTEMP) < PGNUM(addr);
    assert page.Some? ==> forall sl :: sl in m.pte ==> m.pte[sl].page != page.value;
    var tables: bool :| plenty ==> tables;
    var err := m.SysPageAlloc(child, addr, UPW, page, tables);
    if err != None { return Panic; }
    tables :| plenty ==> tables;
    err := m.SysPageMap(child, addr, 0, UTEMP, UPW, tables);
    if err != None { return Panic; }
    Memmove(m, UTEMP, addr);
    err := m.SysPageUnmap(0, UTEMP);
    if err != None { return Panic; }
    assert m.pte == old(m.pte)[Slot(child, PGNUM(addr)) := Pte(page.value, UPW)] - {Slot(m.curenv, TEMPPN)};
    return Ok(());
  }

  /** A state without its environments. */
  function Pages(k: State): State { State(k.mem, k.pte, map[]) }

  /** Pages nobody maps, each once: what page_alloc will hand out. */
  ghost predicate FreePool(k: State, pool: seq<PageId>)
  {
    (forall i :: 0 <= i < |pool| ==> !Referenced(k, pool[i]))
    && (forall i, j :: 0 <= i < j < |pool| ==> pool[i] != pool[j])
  }

  /** t is k after e has copied its pages pns into c, the i-th into pool[i]; only e's UTEMP mapping is gone. */
  ghost predicate Eager(k: State, t: State, e: EnvId, c: EnvId, pns: seq<nat>, pool: seq<PageId>)
  {
    && |pns| <= |pool|
    && (forall i :: 0 <= i < |pns| ==>
          && Lookup(t, Slot(c, pns[i])) == Some(Pte(pool[i], UPW))
          && Slot(e, pns[i]) in k.pte && Content(t, pool[i]) == ContentAt(k, Slot(e, pns[i])))
    && (forall pn :: pn !in pns ==> Slot(c, pn) !in t.pte)
    && (forall sl: Slot :: sl.env != c ==> Lookup(t, sl) == if pns != [] && sl == Slot(e, TEMPPN) then None else Lookup(k, sl))
    && (forall page :: page !in pool ==> Content(t, page) == Content(k, page))
  }

  lemma EagerStep(k: State, t: State, e: EnvId, c: EnvId, pns: seq<nat>, pool: seq<PageId>, pn: nat)
    requires Eager(k, t, e, c, pns, pool) && FreePool(k, pool) && |pns| < |pool|
    requires e != c && pn !in pns && pn > TEMPPN && Slot(e, pn) in k.pte
    ensures Slot(e, pn) in t.pte && Eager(k, Copied(t, e, c, pn, pool[|pns|]), e, c, pns + [pn], pool)
  {
    assert Lookup(t, Slot(e, pn)) == Lookup(k, Slot(e, pn));
    var page := pool[|pns|];
    var u := Copied(t, e, c, pn, page);
    assert k.pte[Slot(e, pn)].page !in pool;
    forall i | 0 <= i < |pns| + 1
      ensures Lookup(u, Slot(c, (pns + [pn])[i])) == Some(Pte(pool[i], UPW))
        && Slot(e, (pns + [pn])[i]) in k.pte && Content(u, pool[i]) == ContentAt(k, Slot(e, (pns + [pn])[i]))
    {
      if i < |pns| { assert pool[i] != page; }
    }
    forall sl: Slot | sl.env != c
      ensures Lookup(u, sl) == if sl == Slot(e, TEMPPN) then None else Lookup(k, sl)
    {
      assert Lookup(t, sl) == if pns != [] && sl == Slot(e, TEMPPN) then None else Lookup(k, sl);
    }
  }

  /** Nothing maps the next page of the pool yet. */
  lemma PoolStaysFree(k: State, t: State, e: EnvId, c: EnvId, pns: seq<nat>, pool: seq<PageId>)
    requires Eager(k, t, e, c, pns, pool) && FreePool(k, pool) && |pns| < |pool|
    ensures !Referenced(t, pool[|pns|])
  {
    forall sl | sl in t.pte ensures t.pte[sl].page != pool[|pns|] {
      if sl.env == c {
        var i :| 0 <= i < |pns| && pns[i] == sl.pn;
        assert Lookup(t, Slot(c, pns[i])) == Some(Pte(pool[i], UPW));
      } else {
        assert Lookup(t, sl) == Lookup(k, sl);
      }
    }
  }

  /** One page of dumbfork's loop, allocating from the pool. */
  method DumbCopyNext(m: M.Kernel, ghost k: State, child: EnvId, addr: nat, ghost pns: seq<nat>, pool: seq<PageId>, n: nat,
                      plenty: bool)
    returns (r: Exit<()>)
    requires m.curenv in m.envs && child in m.envs && child != 0 && m.envs[child].parent == m.curenv && child != m.curenv
    requires Aligned(addr) && UTEXT <= addr < UTOP && PGNUM(addr) !in pns && Slot(m.curenv, PGNUM(addr)) in k.pte
    requires Eager(k, Pages(m.Now()), m.curenv, child, pns, pool) && FreePool(k, pool) && n == |pns|
    modifies m`mem, m`pte
    ensures r.Ok? ==> Eager(k, Pages(m.Now()), m.curenv, child, pns + [PGNUM(addr)], pool)
    ensures plenty && n < |pool| ==> r.Ok?
  {
    if n >= |pool| { return Panic; }
    PoolStaysFree(k, Pages(m.Now()), m.curenv, child, pns, pool);
    EagerStep(k, Pages(m.Now()), m.curenv, child, pns, pool, PGNUM(addr));
    r := DumbDupPage(m, child, addr, Some(pool[n]), plenty);
  }

  /** dumbfork's memmove can read what it copies. */
  ghost predicate AllMapped(k: State, e: EnvId, end: nat, stack: nat)
  {
    forall pn :: (FIRST <= pn && VA(pn) < end) || pn == PGNUM(stack) ==> Slot(e, pn) in k.pte
  }

  /** c maps nothing yet. */
  ghost predicate Blank(k: State, c: EnvId) { forall sl :: sl in k.pte ==> sl.env != c }

  /** The data pages up to end and the stack page have been copied into new pages. */
  ghost predicate CopiedAll(k: State, t: State, e: EnvId, c: EnvId, end: nat, stack: nat, pool: seq<PageId>)
  {
    exists pns :: Eager(k, t, e, c, pns, pool)
      && forall pn :: pn in pns <==> (FIRST <= pn && VA(pn) < end) || pn == PGNUM(stack)
  }

  /** t is k after dumbfork: the pages copied, the child runnable. */
  ghost predicate DumbForked(k: State, t: State, e: EnvId, c: EnvId, end: nat, stack: nat, pool: seq<PageId>, stale: Env)
  {
    CopiedAll(Pages(k), Pages(t), e, c, end, stack, pool)
    && t.envs == k.envs[c := NewEnv(e, stale).(port := NewEnv(e, stale).port.(status := Runnable))]
  }

  lemma Started(k: State, t: State, e: EnvId, c: EnvId, end: nat, stack: nat, pool: seq<PageId>, stale: Env)
    requires CopiedAll(Pages(k), Pages(t), e, c, end, stack, pool)
    requires t.envs == k.envs[c := NewEnv(e, stale)][c := NewEnv(e, stale).(port := NewEnv(e, stale).port.(status := Runnable))]
    ensures DumbForked(k, t, e, c, end, stack, pool, stale)
  {
    assert t.envs == k.envs[c := NewEnv(e, stale).(port := NewEnv(e, stale).port.(status := Runnable))];
  }

  /** How many pages [UTEXT, end) touches. */
  function DataPages(end: nat): int { (end + PGSIZE - 1) / PGSIZE - FIRST }

  /** dumbfork's loop over [UTEXT, end). */
  method DumbCopyData(m: M.Kernel, child: EnvId, end: nat, pool: seq<PageId>, plenty: bool)
    returns (r: Exit<nat>, ghost pns: seq<nat>)
    requires m.curenv in m.envs && child in m.envs && child != 0 && m.envs[child].parent == m.curenv && child != m.curenv
    requires FreePool(Pages(m.Now()), pool) && Blank(Pages(m.Now()), child)
    requires UTEXT <= end <= UTOP && forall pn :: FIRST <= pn && VA(pn) < end ==> Slot(m.curenv, pn) in m.pte
    modifies m`mem, m`pte
    ensures r.Ok? ==> r.value == |pns| && Eager(Pages(old(m.Now())), Pages(m.Now()), m.curenv, child, pns, pool)
    ensures r.Ok? ==> r.value == DataPages(end) && forall pn :: pn in pns <==> FIRST <= pn && VA(pn) < end
    ensures plenty && |pool| >= DataPages(end) ==> r.Ok?
  {
    ghost var k := Pages(m.Now());
    pns := [];
    var addr, n := UTEXT, 0;
    while addr < end
      invariant UTEXT <= addr < end + PGSIZE && Aligned(addr) && n == |pns| == PGNUM(addr) - FIRST
      invariant Eager(k, Pages(m.Now()), m.curenv, child, pns, pool)
      invariant forall pn :: pn in pns <==> FIRST <= pn && VA(pn) < addr
    {
      assert VA(PGNUM(addr)) == addr;
      var dup := DumbCopyNext(m, k, child, addr, pns, pool, n, plenty);
      if dup.Panic? { return Panic, pns; }
      pns := pns + [PGNUM(addr)];
      addr, n := addr + PGSIZE, n + 1;
    }
    assert VA(PGNUM(addr)) == addr;
    return Ok(n), pns;
  }

  /** The loop, and the stack page after it. */
  method DumbCopyAll(m: M.Kernel, child: EnvId, end: nat, stack: nat, pool: seq<PageId>, plenty: bool) returns (r: Exit<()>)
    requires m.curenv in m.envs && child in m.envs && child != 0 && m.envs[child].parent == m.curenv && child != m.curenv
    requires FreePool(Pages(m.Now()), pool) && Blank(Pages(m.Now()), child)
    requires UTEXT <= end <= VA(PGNUM(stack)) && stack < UTOP
    requires AllMapped(Pages(m.Now()), m.curenv, end, stack)
    modifies m`mem, m`pte
    ensures r.Ok? ==> CopiedAll(Pages(old(m.Now())), Pages(m.Now()), m.curenv, child, end, stack, pool)
    ensures plenty && |pool| > DataPages(end) ==> r.Ok?
  {
    ghost var k := Pages(m.Now());
    var copied, pns := DumbCopyData(m, child, end, pool, plenty);
    if copied.Panic? { return Panic; }
    var top := stack - stack % PGSIZE;
    assert PGNUM(top) == PGNUM(stack) && top == VA(PGNUM(stack));
    r := DumbCopyNext(m, k, child, top, pns, pool, copied.value, plenty);
    assert r.Ok? ==> Eager(k, Pages(m.Now()), m.curenv, child, pns + [PGNUM(stack)], pool);
  }

  /** end is the end of the program's data and stack an address in its stack page, above it. */
  method DumbFork(m: M.Kernel, end: nat, stack: nat, child: Option<EnvId>, stale: Env, pool: seq<PageId>, plenty: bool)
    returns (r: Exit<EnvId>)
    requires m.curenv in m.envs && 0 !in m.envs && FreePool(Pages(m.Now()), pool)
    requires child.Some? ==> NewId(m.Now(), child.value) && Blank(Pages(m.Now()), child.value)
    requires UTEXT <= end <= VA(PGNUM(stack)) && stack < UTOP
    requires AllMapped(Pages(m.Now()), m.curenv, end, stack)
    modifies m
    ensures r.Ok? ==> child == Some(r.value)
    ensures r.Ok? ==> DumbForked(old(m.Now()), m.Now(), m.curenv, r.value, end, stack, pool, stale)
    ensures plenty && child.Some? && |pool| > DataPages(end) ==> r.Ok?
  {
    var tables: bool :| plenty ==> tables;
    var err := m.SysExofork(child, stale, tables);
    if err != None { return Panic; }
    var c := child.value;
    assert Pages(m.Now()) == Pages(old(m.Now()));
    var copied := DumbCopyAll(m, c, end, stack, pool, plenty);
    if copied.Panic? { return Panic; }
    ghost var t := Pages(m.Now());
    err := m.SysEnvSetStatus(c, Runnable);
    if err != None { return Panic; }
    assert Pages(m.Now()) == t;
    Started(old(m.Now()), m.Now(), m.curenv, c, end, stack, pool, stale);
    return Ok(c);
  }

  /** Lazy and eager fork agree: from the same state, every page dumbfork copies into its child reads in fork's child
      exactly as it does in dumbfork's, and in neither does the parent's own memory change (but for its UTEMP). */
  lemma ForkMatchesDumbfork(k: State, t: State, u: State, e: EnvId, c: EnvId, xstack: PageId, stale: Env,
                            end: nat, stack: nat, pool: seq<PageId>)
    requires e != c && !Referenced(k, xstack) && FreePool(Pages(k), pool) && forall sl :: sl in k.pte ==> sl.env != c
    requires Forked(k, t, e, c, xstack, stale)
    requires DumbForked(k, u, e, c, end, stack, pool, stale) && Region(PGNUM(stack))
    requires forall pn :: Slot(c, pn) in u.pte ==> Region(pn) && Slot(e, pn) in k.pte && U in k.pte[Slot(e, pn)].perm
    ensures forall pn :: Slot(c, pn) in u.pte ==> Slot(c, pn) in t.pte && ContentAt(t, Slot(c, pn)) == ContentAt(u, Slot(c, pn))
    ensures forall pn :: Slot(e, pn) in k.pte && pn != TEMPPN ==>
      && Slot(e, pn) in t.pte && Slot(e, pn) in u.pte
      && ContentAt(t, Slot(e, pn)) == ContentAt(k, Slot(e, pn)) == ContentAt(u, Slot(e, pn))
  {
    ForkedMeans(k, t, e, c, xstack, stale);
    DumbForkedMeans(k, u, e, c, end, stack, pool, stale);
    forall pn | Slot(e, pn) in k.pte && pn != TEMPPN
      ensures Slot(e, pn) in t.pte && Slot(e, pn) in u.pte
        && ContentAt(t, Slot(e, pn)) == ContentAt(k, Slot(e, pn)) == ContentAt(u, Slot(e, pn))
    {
      assert Slot(e, pn).env != c;
    }
  }

  /** What dumbfork is for: the child reads what the parent has, and the parent keeps what it had. */
  lemma DumbForkedMeans(k: State, u: State, e: EnvId, c: EnvId, end: nat, stack: nat, pool: seq<PageId>, stale: Env)
    requires e != c && FreePool(Pages(k), pool) && DumbForked(k, u, e, c, end, stack, pool, stale)
    ensures forall pn :: Slot(c, pn) in u.pte ==>
      Slot(e, pn) in k.pte && ContentAt(u, Slot(c, pn)) == ContentAt(k, Slot(e, pn))
    ensures forall pn :: Slot(e, pn) in k.pte && pn != TEMPPN ==>
      Slot(e, pn) in u.pte && ContentAt(u, Slot(e, pn)) == ContentAt(k, Slot(e, pn))
    ensures forall pn :: (FIRST <= pn && VA(pn) < end) || pn == PGNUM(stack) ==>
      Slot(c, pn) in u.pte && u.pte[Slot(c, pn)].perm == {U, P, W} && u.pte[Slot(c, pn)].page in pool
    ensures c in u.envs && u.envs[c].port.status == Runnable && u.envs[c].parent == e && u.envs[c].port.eax == 0
  {
    var pns :| Eager(Pages(k), Pages(u), e, c, pns, pool)
      && forall pn :: pn in pns <==> (FIRST <= pn && VA(pn) < end) || pn == PGNUM(stack);
    forall pn | (FIRST <= pn && VA(pn) < end) || pn == PGNUM(stack)
      ensures Slot(c, pn) in u.pte && u.pte[Slot(c, pn)].perm == {U, P, W} && u.pte[Slot(c, pn)].page in pool
    {
      assert pn in pns;
      var i :| 0 <= i < |pns| && pns[i] == pn;
      assert Lookup(Pages(u), Slot(c, pns[i])) == Some(Pte(pool[i], UPW));
    }
    forall pn | Slot(c, pn) in u.pte
      ensures Slot(e, pn) in k.pte && ContentAt(u, Slot(c, pn)) == ContentAt(k, Slot(e, pn))
    {
      var i :| 0 <= i < |pns| && pns[i] == pn;
      assert Lookup(Pages(u), Slot(c, pns[i])) == Some(Pte(pool[i], UPW));
    }
    forall pn | Slot(e, pn) in k.pte && pn != TEMPPN
      ensures Slot(e, pn) in u.pte && ContentAt(u, Slot(e, pn)) == ContentAt(k, Slot(e, pn))
    {
      assert Lookup(Pages(u), Slot(e, pn)) == Lookup(Pages(k), Slot(e, pn));
      assert k.pte[Slot(e, pn)].page !in pool;
    }
  }
}
