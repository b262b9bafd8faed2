/** The kernel as the object its system calls update: page contents, page tables, environments, current environment. */
module Machine {
  import opened Types
  import opened Layout
  import opened Ipc
  import K = Kernel
  import opened KernelTypes = Kernel

  class Kernel {
    var mem: map<PageId, PageData>
    var pte: map<Slot, Pte>
    var envs: map<EnvId, Env>
    var curenv: EnvId

    function Now(): State
      reads this
    {
      State(mem, pte, envs)
    }

    /** The call did what its specification says and returned its error, or 0 as None. */
    twostate predicate Did(new o: Outcome, new r: Option<Errno>)
      reads this
    {
      && curenv == old(curenv)
      && match o
         case Done(s) => r == None && Now() == s
         case Fail(error) => r == Some(error) && Now() == old(Now())
    }

    constructor (mem: map<PageId, PageData>, pte: map<Slot, Pte>, envs: map<EnvId, Env>, curenv: EnvId)
      ensures Now() == State(mem, pte, envs) && this.curenv == curenv
    {
      this.mem, this.pte, this.envs, this.curenv := mem, pte, envs, curenv;
    }

    method Envid2Env(id: EnvId, checkperm: bool) returns (e: Option<EnvId>)
      ensures e == K.Envid2Env(Now(), curenv, id, checkperm)
    {
      if id == 0 { return Some(curenv); }
      if id !in envs { return None; }
      if checkperm && id != curenv && envs[id].parent != curenv { return None; }
      return Some(id);
    }

    method PageInsert(e: EnvId, page: PageId, va: nat, perm: Perm)
      modifies this`pte
      ensures Now() == K.Insert(old(Now()), e, page, va, perm)
    {
      pte := pte[Slot(e, PGNUM(va)) := Pte(page, perm + {P})];
    }

    method SysExofork(child: Option<EnvId>, stale: Env, tables: bool) returns (r: Option<Errno>)
      modifies this`envs
      ensures Did(K.SysExofork(old(Now()), curenv, child, stale, tables), r)
    {
      if child == None { return Some(E_NO_FREE_ENV); }
      if !tables { return Some(E_NO_MEM); }
      var env := stale.(parent := curenv, upcall := 0, port := stale.port.(status := Runnable, recving := false));
      env := env.(port := env.port.(status := NotRunnable));
      env := env.(port := env.port.(eax := 0));
      envs := envs[child.value := env];
      return None;
    }

    method SysEnvSetStatus(id: EnvId, status: Status) returns (r: Option<Errno>)
      requires curenv in envs
      modifies this`envs
      ensures Did(K.SysEnvSetStatus(old(Now()), curenv, id, status), r)
    {
      if status != Runnable && status != NotRunnable { return Some(E_INVAL); }
      var e := Envid2Env(id, true);
      if e == None { return Some(E_BAD_ENV); }
      envs := envs[e.value := envs[e.value].(port := envs[e.value].port.(status := status))];
      return None;
    }

    method SysEnvSetPgfaultUpcall(id: EnvId, func: nat) returns (r: Option<Errno>)
      requires curenv in envs
      modifies this`envs
      ensures Did(K.SysEnvSetPgfaultUpcall(old(Now()), curenv, id, func), r)
    {
      var e := Envid2Env(id, true);
      if e == None { return Some(E_BAD_ENV); }
      envs := envs[e.value := envs[e.value].(upcall := func)];
      return None;
    }

    method SysPageAlloc(id: EnvId, va: nat, perm: Perm, page: Option<PageId>, tables: bool) returns (r: Option<Errno>)
      modifies this`mem, this`pte
      ensures Did(K.SysPageAlloc(old(Now()), curenv, id, va, perm, page, tables), r)
    {
      if va >= UTOP { return Some(E_INVAL); }
      if U !in perm || P !in perm { return Some(E_INVAL); }
      if !(perm <= PTE_SYSCALL) { return Some(E_INVAL); }
      var e := Envid2Env(id, true);
      if e == None { return Some(E_BAD_ENV); }
      if page == None || !tables { return Some(E_NO_MEM); }
      PageInsert(e.value, page.value, va, perm);
      mem := mem[page.value := ZeroPage()];
      return None;
    }

    method SysPageMap(srcid: EnvId, srcva: nat, dstid: EnvId, dstva: nat, perm: Perm, tables: bool)
      returns (r: Option<Errno>)
      modifies this`pte
      ensures Did(K.SysPageMap(old(Now()), curenv, srcid, srcva, dstid, dstva, perm, tables), r)
    {
      if srcva >= UTOP || !Aligned(srcva) || dstva >= UTOP || !Aligned(dstva) { return Some(E_INVAL); }
      if U !in perm || P !in perm { return Some(E_INVAL); }
      if !(perm <= PTE_SYSCALL) { return Some(E_INVAL); }
      var src := Envid2Env(srcid, true);
      if src == None { return Some(E_BAD_ENV); }
      var dst := Envid2Env(dstid, true);
      if dst == None { return Some(E_BAD_ENV); }
      var sl := Slot(src.value, PGNUM(srcva));
      if sl !in pte || (W in perm && W !in pte[sl].perm) { return Some(E_INVAL); }
      if !tables { return Some(E_NO_MEM); }
      PageInsert(dst.value, pte[sl].page, dstva, perm);
      return None;
    }

    method SysPageUnmap(id: EnvId, va: nat) returns (r: Option<Errno>)
      modifies this`pte
      ensures Did(K.SysPageUnmap(old(Now()), curenv, id, va), r)
    {
      if va >= UTOP || !Aligned(va) { return Some(E_INVAL); }
      var e := Envid2Env(id, true);
      if e == None { return Some(E_BAD_ENV); }
      pte := pte - {Slot(e.value, PGNUM(va))};
      return None;
    }

    method SysIpcTrySend(id: EnvId, value: int, srcva: nat, perm: Perm, tables: bool) returns (r: Option<Errno>)
      requires curenv in envs
      modifies this`envs, this`pte
      ensures Did(K.SysIpcTrySend(old(Now()), curenv, id, value, srcva, perm, tables), r)
    {
      var dst := Envid2Env(id, false);
      if dst == None { return Some(E_BAD_ENV); }
      var d := dst.value;
      if !envs[d].port.recving || envs[d].port.from != 0 { return Some(E_IPC_NOT_RECV); }
      if srcva < UTOP && !Aligned(srcva) { return Some(E_INVAL); }
      if srcva < UTOP && (U !in perm || P !in perm || !(perm <= PTE_SYSCALL)) { return Some(E_INVAL); }
      var sl := Slot(curenv, PGNUM(srcva));
      if srcva < UTOP && sl !in pte { return Some(E_INVAL); }
      if srcva < UTOP && W !in pte[sl].perm && W in perm { return Some(E_INVAL); }
      if srcva < UTOP && envs[d].dstva != 0 {
        if !tables { return Some(E_NO_MEM); }
        PageInsert(d, pte[sl].page, envs[d].dstva, perm);
        envs := envs[d := envs[d].(ipcPerm := perm)];
      }
      envs := envs[d := envs[d].(port := envs[d].port.(from := curenv, value := value))];
      envs := envs[d := envs[d].(port := envs[d].port.(status := Runnable, recving := false, eax := 0))];
      return None;
    }

    /** Up to the call of sched_yield, from which the system call does not return. */
    method SysIpcRecv(dstva: nat) returns (r: Option<Errno>)
      requires curenv in envs
      modifies this`envs
      ensures Did(K.SysIpcRecv(old(Now()), curenv, dstva), r)
    {
      if dstva < UTOP && !Aligned(dstva) { return Some(E_INVAL); }
      envs := envs[curenv := envs[curenv].(dstva := dstva)];
      envs := envs[curenv := envs[curenv].(port := envs[curenv].port.(recving := true, from := 0, status := NotRunnable))];
      return None;
    }

    /** One byte of user memory of the current environment. */
    function Peek(va: nat): Byte
      requires Slot(curenv, PGNUM(va)) in pte
      reads this
    {
      Content(Now(), pte[Slot(curenv, PGNUM(va))].page)[PGOFF(va)]
    }

    method Poke(va: nat, v: Byte)
      requires Slot(curenv, PGNUM(va)) in pte
      modifies this`mem
      ensures var page := pte[Slot(curenv, PGNUM(va))].page;
        mem == old(mem)[page := Content(old(Now()), page)[PGOFF(va) := v]]
    {
      var page := pte[Slot(curenv, PGNUM(va))].page;
      mem := mem[page := Content(Now(), page)[PGOFF(va) := v]];
    }
  }
}
