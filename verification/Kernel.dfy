/** The environment and memory system calls of kern/syscall.c, over page tables of (page, permission) entries. */
module Kernel {
  import opened Types
  import opened Layout
  import opened Ipc

  type PageId = nat
  type PageData = d: seq<Byte> | |d| == PGSIZE witness seq(PGSIZE, _ => 0)

  function ZeroPage(): PageData { seq(PGSIZE, _ => 0) }

  /** PTE_P, PTE_W, PTE_U, the three PTE_AVAIL bits (PTE_COW is one), and any other bit. */
  datatype Flag = P | W | U | COW | SHARE | AVAIL | OTHER
  type Perm = set<Flag>
  const PTE_SYSCALL: Perm := {P, W, U, COW, SHARE, AVAIL}

  datatype Pte = Pte(page: PageId, perm: Perm)

  /** One page-table slot: a page number of one environment. */
  datatype Slot = Slot(env: EnvId, pn: nat)

  datatype Env = Env(parent: EnvId, port: Port, upcall: nat, dstva: nat, ipcPerm: Perm)

  /** Page contents, the present page-table entries of all environments, and the allocated environments. */
  datatype State = State(mem: map<PageId, PageData>, pte: map<Slot, Pte>, envs: map<EnvId, Env>)

  datatype Outcome = Done(s: State) | Fail(error: Errno)

  function Content(s: State, p: PageId): PageData { if p in s.mem then s.mem[p] else ZeroPage() }

  /** pp_ref > 0. */
  ghost predicate Referenced(s: State, p: PageId)
  {
    exists sl :: sl in s.pte && s.pte[sl].page == p
  }

  /** What page_alloc may return: nothing, or a page that no table refers to. */
  ghost predicate Allocatable(s: State, free: Option<PageId>)
  {
    free.Some? ==> !Referenced(s, free.value)
  }

  predicate Aligned(va: nat) { va % PGSIZE == 0 }

  predicate PermOk(perm: Perm) { U in perm && P in perm && perm <= PTE_SYSCALL }

  /** envid2env: 0 names the caller; with checkperm only the caller and its children are allowed. */
  function Envid2Env(s: State, cur: EnvId, id: EnvId, checkperm: bool): Option<EnvId>
  {
    if id == 0 then Some(cur)
    else if id !in s.envs then None
    else if checkperm && id != cur && s.envs[id].parent != cur then None
    else Some(id)
  }

  /** page_insert once the page table exists; re-inserting the same page only changes the permission. */
  function Insert(s: State, e: EnvId, page: PageId, va: nat, perm: Perm): State
  {
    State(s.mem, s.pte[Slot(e, PGNUM(va)) := Pte(page, perm + {P})], s.envs)
  }

  function Zeroed(s: State, page: PageId): State { State(s.mem[page := ZeroPage()], s.pte, s.envs) }

  function SetEnv(s: State, e: EnvId, env: Env): State { State(s.mem, s.pte, s.envs[e := env]) }

  function SetPort(s: State, e: EnvId, port: Port): State
    requires e in s.envs
  {
    SetEnv(s, e, s.envs[e].(port := port))
  }

  /** env_alloc as sys_exofork adjusts it: only these fields are reset, the rest stays from the slot's last user. */
  function NewEnv(parent: EnvId, stale: Env): Env
  {
    Env(parent, Port(NotRunnable, false, stale.port.from, stale.port.value, 0), 0, stale.dstva, stale.ipcPerm)
  }

  /** child is the slot env_alloc takes, if any is free; tables says whether there is a page for its directory. */
  function SysExofork(s: State, cur: EnvId, child: Option<EnvId>, stale: Env, tables: bool): Outcome
  {
    if child.None? then Fail(E_NO_FREE_ENV)
    else if !tables then Fail(E_NO_MEM)
    else
      Done(SetEnv(s, child.value, NewEnv(cur, stale)))
  }

  function SysEnvSetStatus(s: State, cur: EnvId, id: EnvId, status: Status): Outcome
    requires cur in s.envs
  {
    if status != Runnable && status != NotRunnable then Fail(E_INVAL)
    else match Envid2Env(s, cur, id, true)
      case None => Fail(E_BAD_ENV)
      case Some(e) => Done(SetPort(s, e, s.envs[e].port.(status := status)))
  }

  function SysEnvSetPgfaultUpcall(s: State, cur: EnvId, id: EnvId, func: nat): Outcome
    requires cur in s.envs
  {
    match Envid2Env(s, cur, id, true)
    case None => Fail(E_BAD_ENV)
    case Some(e) => Done(SetEnv(s, e, s.envs[e].(upcall := func)))
  }

  /** The code, unlike its comment, does not test that va is page-aligned. */
  function SysPageAlloc(s: State, cur: EnvId, id: EnvId, va: nat, perm: Perm,
                        free: Option<PageId>, tables: bool): Outcome
  {
    if va >= UTOP || !PermOk(perm) then Fail(E_INVAL)
    else match Envid2Env(s, cur, id, true)
      case None => Fail(E_BAD_ENV)
      case Some(e) =>
        if free.None? || !tables then Fail(E_NO_MEM)
        else Done(Zeroed(Insert(s, e, free.value, va, perm), free.value))
  }

  function SysPageMap(s: State, cur: EnvId, srcid: EnvId, srcva: nat, dstid: EnvId, dstva: nat,
                      perm: Perm, tables: bool): Outcome
  {
    if srcva >= UTOP || !Aligned(srcva) || dstva >= UTOP || !Aligned(dstva) || !PermOk(perm) then Fail(E_INVAL)
    else match Envid2Env(s, cur, srcid, true)
      case None => Fail(E_BAD_ENV)
      case Some(src) =>
        match Envid2Env(s, cur, dstid, true)
        case None => Fail(E_BAD_ENV)
        case Some(dst) =>
          var sl := Slot(src, PGNUM(srcva));
          if sl !in s.pte || (W in perm && W !in s.pte[sl].perm) then Fail(E_INVAL)
          else if !tables then Fail(E_NO_MEM)
          else Done(Insert(s, dst, s.pte[sl].page, dstva, perm))
  }

  function SysPageUnmap(s: State, cur: EnvId, id: EnvId, va: nat): Outcome
  {
    if va >= UTOP || !Aligned(va) then Fail(E_INVAL)
    else match Envid2Env(s, cur, id, true)
      case None => Fail(E_BAD_ENV)
      case Some(e) => Done(State(s.mem, s.pte - {Slot(e, PGNUM(va))}, s.envs))
  }

  function SysIpcTrySend(s: State, cur: EnvId, id: EnvId, value: int, srcva: nat, perm: Perm, tables: bool): Outcome
    requires cur in s.envs
  {
    match Envid2Env(s, cur, id, false)
    case None => Fail(E_BAD_ENV)
    case Some(dst) =>
      var src := Slot(cur, PGNUM(srcva));
      if !Accepts(s.envs[dst].port) then Fail(E_IPC_NOT_RECV)
      else if srcva < UTOP && (!Aligned(srcva) || !PermOk(perm) || src !in s.pte
                               || (W in perm && W !in s.pte[src].perm)) then Fail(E_INVAL)
      else if srcva >= UTOP || s.envs[dst].dstva == 0 then
        Done(SetPort(s, dst, Delivered(s.envs[dst].port, cur, value)))
      else if !tables then Fail(E_NO_MEM)
      else
        var env := s.envs[dst].(ipcPerm := perm, port := Delivered(s.envs[dst].port, cur, value));
        Done(SetEnv(Insert(s, dst, s.pte[src].page, s.envs[dst].dstva, perm), dst, env))
  }

  /** Every mapping is below UTOP. Page tables from UTOP up are the kernel's, shared by all environments or, at UVPT, the
      page directory itself; no State describes a change to them. */
  ghost predicate Below(s: State) { forall sl :: sl in s.pte ==> sl.pn < PGNUM(UTOP) }

  /** The send goes through and maps its page at or above UTOP: sys_ipc_recv takes any such dstva, and sys_ipc_try_send
      does not look at it. */
  predicate MapsHigh(s: State, cur: EnvId, id: EnvId, value: int, srcva: nat, perm: Perm, tables: bool)
    requires cur in s.envs
  {
    var dst := if id == 0 then cur else id;
    && srcva < UTOP && dst in s.envs && s.envs[dst].dstva >= UTOP
    && SysIpcTrySend(s, cur, id, value, srcva, perm, tables).Done?
  }

  /** Such sends are the only ones that leave the tables of user environments. */
  lemma SendBelow(s: State, cur: EnvId, id: EnvId, value: int, srcva: nat, perm: Perm, tables: bool)
    requires cur in s.envs && Below(s) && SysIpcTrySend(s, cur, id, value, srcva, perm, tables).Done?
    ensures Below(SysIpcTrySend(s, cur, id, value, srcva, perm, tables).s) <==>
            !MapsHigh(s, cur, id, value, srcva, perm, tables)
  {
    var dst := if id == 0 then cur else id;
    var t := SysIpcTrySend(s, cur, id, value, srcva, perm, tables).s;
    if MapsHigh(s, cur, id, value, srcva, perm, tables) {
      var sl := Slot(dst, PGNUM(s.envs[dst].dstva));
      assert sl in t.pte && sl.pn >= PGNUM(UTOP);
    }
  }

  function SysIpcRecv(s: State, cur: EnvId, dstva: nat): Outcome
    requires cur in s.envs
  {
    if dstva < UTOP && !Aligned(dstva) then Fail(E_INVAL)
    else Done(SetEnv(s, cur, s.envs[cur].(dstva := dstva, port := Opened(s.envs[cur].port))))
  }

  /** env_free: every mapping of e goes, and so does e. */
  function EnvFree(s: State, e: EnvId): State
  {
    State(s.mem, map sl | sl in s.pte && sl.env != e :: s.pte[sl], s.envs - {e})
  }
}
