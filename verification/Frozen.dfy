/** Read-only pages stay read-only, whatever user programs call. */
module Frozen {
  import opened Types
  import opened Layout
  import opened Ipc
  import opened Kernel

  /** Any system call that touches page tables or environments, by any environment, with any arguments. */
  datatype Syscall =
    | Exofork(child: Option<EnvId>, stale: Env, tables: bool)
    | SetStatusCall(id: EnvId, status: Status)
    | SetUpcall(id: EnvId, func: nat)
    | PageAlloc(id: EnvId, va: nat, perm: Perm, page: Option<PageId>, tables: bool)
    | PageMap(srcid: EnvId, srcva: nat, dstid: EnvId, dstva: nat, perm: Perm, tables: bool)
    | PageUnmap(id: EnvId, va: nat)
    | TrySend(id: EnvId, value: int, srcva: nat, perm: Perm, tables: bool)
    | IpcRecv(dstva: nat)
    | Destroy(id: EnvId)

  datatype Request = Request(cur: EnvId, call: Syscall)

  /** sys_env_destroy of a permitted environment; one that runs elsewhere is freed when it next traps. */
  function SysEnvDestroy(s: State, cur: EnvId, id: EnvId): Outcome
  {
    match Envid2Env(s, cur, id, true)
    case None => Fail(E_BAD_ENV)
    case Some(e) => Done(EnvFree(s, e))
  }

  function Result(s: State, r: Request): Outcome
    requires r.cur in s.envs
  {
    match r.call
    case Exofork(child, stale, tables) => SysExofork(s, r.cur, child, stale, tables)
    case SetStatusCall(id, status) => SysEnvSetStatus(s, r.cur, id, status)
    case SetUpcall(id, func) => SysEnvSetPgfaultUpcall(s, r.cur, id, func)
    case PageAlloc(id, va, perm, page, tables) => SysPageAlloc(s, r.cur, id, va, perm, page, tables)
    case PageMap(srcid, srcva, dstid, dstva, perm, tables) =>
      SysPageMap(s, r.cur, srcid, srcva, dstid, dstva, perm, tables)
    case PageUnmap(id, va) => SysPageUnmap(s, r.cur, id, va)
    case TrySend(id, value, srcva, perm, tables) => SysIpcTrySend(s, r.cur, id, value, srcva, perm, tables)
    case IpcRecv(dstva) => SysIpcRecv(s, r.cur, dstva)
    case Destroy(id) => SysEnvDestroy(s, r.cur, id)
  }

  /** The caller exists, and page_alloc hands out only a page that no table refers to. */
  ghost predicate Possible(s: State, r: Request)
  {
    r.cur in s.envs && (r.call.PageAlloc? ==> Allocatable(s, r.call.page))
  }

  function Next(s: State, r: Request): State
    requires r.cur in s.envs
  {
    var o := Result(s, r);
    if o.Done? then o.s else s
  }

  ghost predicate PossibleRun(s: State, rs: seq<Request>)
    decreases |rs|
  {
    rs == [] || (Possible(s, rs[0]) && PossibleRun(Next(s, rs[0]), rs[1..]))
  }

  ghost function After(s: State, rs: seq<Request>): State
    requires PossibleRun(s, rs)
    decreases |rs|
  {
    if rs == [] then s else After(Next(s, rs[0]), rs[1..])
  }

  /** No environment maps the page with PTE_W. */
  ghost predicate ReadOnly(s: State, page: PageId)
  {
    forall sl :: sl in s.pte && s.pte[sl].page == page ==> W !in s.pte[sl].perm
  }

  /** A page goes to a receiver that asked for it at or above UTOP. */
  predicate SendsHigh(s: State, r: Request)
    requires r.cur in s.envs
  {
    r.call.TrySend? && MapsHigh(s, r.cur, r.call.id, r.call.value, r.call.srcva, r.call.perm, r.call.tables)
  }

  /** No other request can put a mapping there, so requests stay within the tables of user environments exactly as long as
      there is no such send. */
  lemma BelowExactly(s: State, r: Request)
    requires Possible(s, r) && Below(s)
    ensures Below(Next(s, r)) <==> !SendsHigh(s, r)
  {
    if r.call.TrySend? && Result(s, r).Done? {
      SendBelow(s, r.cur, r.call.id, r.call.value, r.call.srcva, r.call.perm, r.call.tables);
    }
  }

  ghost predicate NeverHigh(s: State, rs: seq<Request>)
    requires PossibleRun(s, rs)
    decreases |rs|
  {
    rs == [] || (!SendsHigh(s, rs[0]) && NeverHigh(Next(s, rs[0]), rs[1..]))
  }

  /** The failing input, from any state: one environment asks for a page at UTOP, another sends one. */
  lemma HighSend(s: State, e: EnvId, cur: EnvId, value: int, srcva: nat, perm: Perm)
    requires Below(s) && e in s.envs && cur in s.envs && e != 0 && e != cur
    requires srcva < UTOP && Aligned(srcva) && PermOk(perm) && Slot(cur, PGNUM(srcva)) in s.pte
    requires W in perm ==> W in s.pte[Slot(cur, PGNUM(srcva))].perm
    ensures var ask, send := Request(e, IpcRecv(UTOP)), Request(cur, TrySend(e, value, srcva, perm, true));
      && Possible(s, ask) && !SendsHigh(s, ask) && Possible(Next(s, ask), send) && SendsHigh(Next(s, ask), send)
      && var t := Next(Next(s, ask), send);
         Slot(e, PGNUM(UTOP)) in t.pte && t.pte[Slot(e, PGNUM(UTOP))].page == s.pte[Slot(cur, PGNUM(srcva))].page
  {
    assert UTOP % PGSIZE == 0;
  }

  predicate HandsOut(r: Request, page: PageId) { r.call.PageAlloc? && r.call.page == Some(page) }

  lemma StepFrozen(s: State, r: Request, page: PageId)
    requires Possible(s, r) && ReadOnly(s, page) && !HandsOut(r, page)
    ensures ReadOnly(Next(s, r), page)
  {
  }

  /** While a page is mapped it is not handed out again, so a mapped read-only page is frozen outright. */
  lemma MappedIsNotHandedOut(s: State, r: Request, page: PageId)
    requires Possible(s, r) && Referenced(s, page)
    ensures !HandsOut(r, page)
  {
  }

  /** A page that nobody maps writable gets no writable mapping as long as page_alloc does not hand it out again, if no
      send leaves the tables of user environments. */
  lemma {:induction false} FrozenPage(s: State, rs: seq<Request>, page: PageId)
    requires PossibleRun(s, rs) && Below(s) && NeverHigh(s, rs) && ReadOnly(s, page)
    requires forall i :: 0 <= i < |rs| ==> !HandsOut(rs[i], page)
    ensures ReadOnly(After(s, rs), page) && Below(After(s, rs))
    decreases |rs|
  {
    if rs != [] {
      StepFrozen(s, rs[0], page);
      BelowExactly(s, rs[0]);
      FrozenPage(Next(s, rs[0]), rs[1..], page);
    }
  }

  /** A page stays frozen as long as it stays mapped, whatever is called. */
  lemma {:induction false} FrozenWhileMapped(s: State, rs: seq<Request>, page: PageId)
    requires PossibleRun(s, rs) && Below(s) && NeverHigh(s, rs) && ReadOnly(s, page)
    requires forall i :: 0 <= i < |rs| && PossibleRun(s, rs[..i]) ==> Referenced(After(s, rs[..i]), page)
    ensures ReadOnly(After(s, rs), page) && Below(After(s, rs))
    decreases |rs|
  {
    if rs != [] {
      assert rs[..0] == [];
      MappedIsNotHandedOut(s, rs[0], page);
      StepFrozen(s, rs[0], page);
      BelowExactly(s, rs[0]);
      var t := Next(s, rs[0]);
      forall i | 0 <= i < |rs| - 1 && PossibleRun(t, rs[1..][..i])
        ensures Referenced(After(t, rs[1..][..i]), page)
      {
        assert rs[..i + 1][1..] == rs[1..][..i];
      }
      FrozenWhileMapped(t, rs[1..], page);
    }
  }

  /** Contents too: no call but a send to UTOP or above can write a page that is mapped somewhere. */
  lemma CallsDoNotWrite(s: State, r: Request, page: PageId)
    requires Possible(s, r) && Below(s) && !SendsHigh(s, r) && Referenced(s, page)
    ensures Content(Next(s, r), page) == Content(s, page)
  {
  }

  /** e blocks in sys_ipc_recv and the request sends to it. */
  predicate SendsTo(s: State, r: Request, e: EnvId)
  {
    r.call.TrySend? && r.call.id == e && e in s.envs && Accepts(s.envs[e].port)
  }

  /** System calls reach no further than the caller's own family: of any other environment they change neither page
      tables nor fields, but for a message to one that asks for it. */
  lemma CallsAreConfined(s: State, r: Request, e: EnvId)
    requires Possible(s, r) && e in s.envs && e != 0 && e != r.cur && s.envs[e].parent != r.cur && !SendsTo(s, r, e)
    requires (r.call.Exofork? && r.call.child.Some? ==> r.call.child.value !in s.envs) && Below(s) && !SendsHigh(s, r)
    ensures e in Next(s, r).envs && Next(s, r).envs[e] == s.envs[e]
    ensures forall sl: Slot :: sl.env == e ==> SameAt(s, Next(s, r), sl)
  {
    ConfinedFields(s, r, e);
    forall sl: Slot | sl.env == e ensures SameAt(s, Next(s, r), sl) { ConfinedSlot(s, r, sl); }
  }

  predicate SameAt(s: State, t: State, sl: Slot)
  {
    (sl in t.pte <==> sl in s.pte) && (sl in s.pte && sl in t.pte ==> t.pte[sl] == s.pte[sl])
  }

  lemma ConfinedFields(s: State, r: Request, e: EnvId)
    requires Possible(s, r) && e in s.envs && e != 0 && e != r.cur && s.envs[e].parent != r.cur && !SendsTo(s, r, e)
    requires r.call.Exofork? && r.call.child.Some? ==> r.call.child.value !in s.envs
    ensures e in Next(s, r).envs && Next(s, r).envs[e] == s.envs[e]
  {
  }

  lemma ConfinedSlot(s: State, r: Request, sl: Slot)
    requires Possible(s, r) && sl.env in s.envs && sl.env != 0 && sl.env != r.cur && s.envs[sl.env].parent != r.cur
    requires !SendsTo(s, r, sl.env)
    ensures SameAt(s, Next(s, r), sl)
  {
  }

  /** And a message changes one entry at most, the one its receiver named. */
  lemma SendsAreConfined(s: State, r: Request, sl: Slot)
    requires Possible(s, r) && r.call.TrySend? && Below(s) && !SendsHigh(s, r)
    requires var dst := if r.call.id == 0 then r.cur else r.call.id;
      sl.env == dst && dst in s.envs ==> sl.pn != PGNUM(s.envs[dst].dstva)
    ensures SameAt(s, Next(s, r), sl)
  {
  }
}
