/** What each system call promises its caller, field by field and slot by slot. */
module SysCalls {
  import opened Types
  import opened Layout
  import opened Ipc
  import opened Kernel

  /** The environment an id names. */
  function Named(cur: EnvId, id: EnvId): EnvId { if id == 0 then cur else id }

  /** The caller itself or a child of its. */
  predicate Family(s: State, cur: EnvId, id: EnvId)
  {
    id == 0 || (id in s.envs && (id == cur || s.envs[id].parent == cur))
  }

  /** t differs from s at most in the entry sl and the environment e. */
  ghost predicate OnlyAt(s: State, t: State, sl: Slot, e: EnvId)
  {
    && (forall x: Slot :: x != sl ==> (x in t.pte <==> x in s.pte) && (x in s.pte && x in t.pte ==> t.pte[x] == s.pte[x]))
    && (forall x :: x != e ==> (x in t.envs <==> x in s.envs) && (x in s.envs && x in t.envs ==> t.envs[x] == s.envs[x]))
  }

  /** A fresh environment: the caller's child, stopped, deaf, without an upcall, about to return 0. */
  lemma ExoforkMeans(s: State, cur: EnvId, child: Option<EnvId>, stale: Env, tables: bool)
    ensures match SysExofork(s, cur, child, stale, tables)
            case Fail(error) => error == if child.None? then E_NO_FREE_ENV else E_NO_MEM
            case Done(t) =>
              && child.Some? && tables && t.mem == s.mem && t.pte == s.pte && t.envs.Keys == s.envs.Keys + {child.value}
              && (forall x :: x in s.envs && x != child.value ==> t.envs[x] == s.envs[x])
              && var env := t.envs[child.value];
                 && env.parent == cur && env.port.status == NotRunnable && !env.port.recving && env.port.eax == 0
                 && env.upcall == 0
    ensures SysExofork(s, cur, child, stale, tables).Done? <==> child.Some? && tables
  {
  }

  lemma SetStatusMeans(s: State, cur: EnvId, id: EnvId, status: Status)
    requires cur in s.envs
    ensures match SysEnvSetStatus(s, cur, id, status)
            case Fail(error) =>
              if status != Runnable && status != NotRunnable then error == E_INVAL
              else error == E_BAD_ENV && !Family(s, cur, id)
            case Done(t) =>
              var e := Named(cur, id);
              && (status == Runnable || status == NotRunnable) && Family(s, cur, id)
              && t.mem == s.mem && t.pte == s.pte && t.envs.Keys == s.envs.Keys && t.envs[e].port.status == status
              && (forall x :: x in s.envs && x != e ==> t.envs[x] == s.envs[x])
              && t.envs[e].(port := t.envs[e].port.(status := s.envs[e].port.status)) == s.envs[e]
  {
  }

  lemma SetUpcallMeans(s: State, cur: EnvId, id: EnvId, func: nat)
    requires cur in s.envs
    ensures match SysEnvSetPgfaultUpcall(s, cur, id, func)
            case Fail(error) => error == E_BAD_ENV && !Family(s, cur, id)
            case Done(t) =>
              var e := Named(cur, id);
              && Family(s, cur, id) && t.mem == s.mem && t.pte == s.pte && t.envs.Keys == s.envs.Keys
              && t.envs[e].upcall == func && t.envs[e].(upcall := s.envs[e].upcall) == s.envs[e]
              && forall x :: x in s.envs && x != e ==> t.envs[x] == s.envs[x]
  {
  }

  /** The permissions a caller may ask for. */
  predicate Askable(perm: Perm) { U in perm && P in perm && OTHER !in perm }

  lemma AskableIsOk(perm: Perm)
    ensures Askable(perm) <==> PermOk(perm)
    ensures Askable(perm) ==> perm + {P} == perm
  {
    forall f | f in perm && f != OTHER ensures f in PTE_SYSCALL {
      match f { case P => case W => case U => case COW => case SHARE => case AVAIL => case OTHER => }
    }
    assert OTHER !in PTE_SYSCALL;
  }

  lemma PageAllocMeans(s: State, cur: EnvId, id: EnvId, va: nat, perm: Perm, free: Option<PageId>, tables: bool)
    requires cur in s.envs
    ensures match SysPageAlloc(s, cur, id, va, perm, free, tables)
            case Fail(error) =>
              if va >= UTOP || !Askable(perm) then error == E_INVAL
              else if !Family(s, cur, id) then error == E_BAD_ENV
              else error == E_NO_MEM && (free.None? || !tables)
            case Done(t) =>
              var sl := Slot(Named(cur, id), va / PGSIZE);
              && va < UTOP && Askable(perm) && Family(s, cur, id) && free.Some? && tables
              && sl in t.pte && t.pte[sl] == Pte(free.value, perm) && OnlyAt(s, t, sl, 0) && t.envs == s.envs
              && (forall i :: 0 <= i < PGSIZE ==> Content(t, free.value)[i] == 0)
              && forall page :: page != free.value ==> Content(t, page) == Content(s, page)
  {
    AskableIsOk(perm);
  }

  lemma PageMapMeans(s: State, cur: EnvId, srcid: EnvId, srcva: nat, dstid: EnvId, dstva: nat, perm: Perm, tables: bool)
    requires cur in s.envs
    ensures var src, dst := Slot(Named(cur, srcid), srcva / PGSIZE), Slot(Named(cur, dstid), dstva / PGSIZE);
      var shape := srcva < UTOP && srcva % PGSIZE == 0 && dstva < UTOP && dstva % PGSIZE == 0 && Askable(perm);
      var family := Family(s, cur, srcid) && Family(s, cur, dstid);
      match SysPageMap(s, cur, srcid, srcva, dstid, dstva, perm, tables)
      case Fail(error) =>
        if !shape then error == E_INVAL
        else if !family then error == E_BAD_ENV
        else if src !in s.pte || (W in perm && W !in s.pte[src].perm) then error == E_INVAL
        else error == E_NO_MEM && !tables
      case Done(t) =>
        && shape && family && tables && src in s.pte && (W in perm ==> W in s.pte[src].perm)
        && dst in t.pte && t.pte[dst] == Pte(s.pte[src].page, perm)
        && OnlyAt(s, t, dst, 0) && t.envs == s.envs && t.mem == s.mem
  {
    AskableIsOk(perm);
  }

  lemma PageUnmapMeans(s: State, cur: EnvId, id: EnvId, va: nat)
    requires cur in s.envs
    ensures match SysPageUnmap(s, cur, id, va)
            case Fail(error) =>
              if va >= UTOP || va % PGSIZE != 0 then error == E_INVAL else error == E_BAD_ENV && !Family(s, cur, id)
            case Done(t) =>
              var sl := Slot(Named(cur, id), va / PGSIZE);
              && va < UTOP && va % PGSIZE == 0 && Family(s, cur, id)
              && sl !in t.pte && OnlyAt(s, t, sl, 0) && t.envs == s.envs && t.mem == s.mem
  {
  }

  /** A send: when it is refused and why, what it leaves in the receiver, and when a page goes along. */
  lemma TrySendMeans(s: State, cur: EnvId, id: EnvId, value: int, srcva: nat, perm: Perm, tables: bool)
    requires cur in s.envs
    ensures var e, src := Named(cur, id), Slot(cur, srcva / PGSIZE);
      match SysIpcTrySend(s, cur, id, value, srcva, perm, tables)
      case Fail(error) =>
        if e !in s.envs then error == E_BAD_ENV
        else if !s.envs[e].port.recving || s.envs[e].port.from != 0 then error == E_IPC_NOT_RECV
        else if srcva < UTOP && (srcva % PGSIZE != 0 || !Askable(perm) || src !in s.pte || (W in perm && W !in s.pte[src].perm))
        then error == E_INVAL
        else error == E_NO_MEM && srcva < UTOP && s.envs[e].dstva != 0 && !tables
      case Done(t) =>
        && e in s.envs && s.envs[e].port.recving && s.envs[e].port.from == 0
        && t.mem == s.mem && t.envs.Keys == s.envs.Keys && (forall x :: x in s.envs && x != e ==> t.envs[x] == s.envs[x])
        && var env := t.envs[e];
           && env.port.from == cur && env.port.value == value && !env.port.recving && env.port.status == Runnable
           && env.port.eax == 0 && env.upcall == s.envs[e].upcall && env.parent == s.envs[e].parent
           && if srcva >= UTOP || s.envs[e].dstva == 0 then t.pte == s.pte && env.ipcPerm == s.envs[e].ipcPerm
              else
                var sl := Slot(e, s.envs[e].dstva / PGSIZE);
                && srcva % PGSIZE == 0 && Askable(perm) && src in s.pte && (W in perm ==> W in s.pte[src].perm)
                && sl in t.pte && t.pte[sl] == Pte(s.pte[src].page, perm) && OnlyAt(s, t, sl, e) && env.ipcPerm == perm
  {
    AskableIsOk(perm);
  }

  lemma IpcRecvMeans(s: State, cur: EnvId, dstva: nat)
    requires cur in s.envs
    ensures match SysIpcRecv(s, cur, dstva)
            case Fail(error) => error == E_INVAL && dstva < UTOP && dstva % PGSIZE != 0
            case Done(t) =>
              && (dstva >= UTOP || dstva % PGSIZE == 0) && t.mem == s.mem && t.pte == s.pte && t.envs.Keys == s.envs.Keys
              && (forall x :: x in s.envs && x != cur ==> t.envs[x] == s.envs[x])
              && var env := t.envs[cur];
                 && env.dstva == dstva && env.port.recving && env.port.from == 0 && env.port.status == NotRunnable
                 && env.upcall == s.envs[cur].upcall && env.parent == s.envs[cur].parent
  {
  }

  /** When an environment is freed, it and its mappings are gone, and nothing else is. */
  lemma EnvFreeMeans(s: State, e: EnvId)
    ensures var t := EnvFree(s, e);
      && t.mem == s.mem && t.envs == s.envs - {e} && (forall sl :: sl in t.pte <==> sl in s.pte && sl.env != e)
      && forall sl :: sl in t.pte ==> t.pte[sl] == s.pte[sl]
  {
  }
}
