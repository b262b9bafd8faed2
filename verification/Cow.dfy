/** lib/fork.c as a transition system: any number of environments load, store, fault and fork, one system call
    or one memory access at a time, in any order. */
module Cow {
  import opened Types
  import opened Layout
  import opened Ipc
  import opened Kernel

  const FIRST: nat := PGNUM(UTEXT)
  const XPN: nat := PGNUM(UXSTACKTOP - PGSIZE)
  const PFPN: nat := PGNUM(PFTEMP)

  /** The pages fork walks over: [UTEXT, UXSTACKTOP - PGSIZE). */
  predicate Region(pn: nat) { FIRST <= pn < XPN }

  /** Those and the exception stack; what is mapped lower is for temporary use. */
  predicate Data(pn: nat) { FIRST <= pn <= XPN }

  function VA(pn: nat): nat { pn * PGSIZE }

  /** Where an environment is in fork() and duppage(): the system call or page-table read it makes next. */
  datatype ForkPc =
    | NotForking
    | AtXstack
    | AtUpcall
    | AtExofork
    | AtPage(child: EnvId, pn: nat)
    | AtMapChild(child: EnvId, pn: nat, cow: bool)
    | AtMapSelf(child: EnvId, pn: nat, late: bool)
    | AtChildXstack(child: EnvId)
    | AtChildUpcall(child: EnvId)
    | AtStart(child: EnvId)

  /** Where an environment is in pgfault(): before its allocation, or i bytes into its memmove. */
  datatype FaultPc = NoFault | AtAlloc(pn: nat) | AtCopy(pn: nat, i: nat)

  datatype Code = Code(fork: ForkPc, fault: FaultPc, handler: bool)

  datatype Sys = Sys(k: State, code: map<EnvId, Code>)

  datatype Action =
    | Run(e: EnvId)
    | Preempt(e: EnvId)
    | Load(e: EnvId, pn: nat, off: nat)
    | Store(e: EnvId, pn: nat, off: nat, v: Byte)
    | Fault(e: EnvId, pn: nat)
    | PfAlloc(e: EnvId, page: Option<PageId>, tables: bool)
    | PfCopy(e: EnvId)
    | PfMap(e: EnvId, tables: bool)
    | ForkEnter(e: EnvId)
    | ForkXstack(e: EnvId, page: Option<PageId>, tables: bool)
    | ForkUpcall(e: EnvId)
    | ForkChild(e: EnvId, child: Option<EnvId>, stale: Env, tables: bool)
    | ForkScan(e: EnvId)
    | DupChild(e: EnvId, tables: bool)
    | DupSelf(e: EnvId, tables: bool)
    | ChildXstack(e: EnvId, page: Option<PageId>, tables: bool)
    | ChildUpcall(e: EnvId)
    | ChildStart(e: EnvId)
    | Recv(e: EnvId)
    | Send(e: EnvId, to: EnvId, value: int)
    | Exit(e: EnvId)

  const UPCALL: nat := UTEXT

  /** The child that a fork in progress is building, or 0. */
  function ChildOf(f: ForkPc): EnvId
  {
    match f
    case AtPage(c, _) => c
    case AtMapChild(c, _, _) => c
    case AtMapSelf(c, _, _) => c
    case AtChildXstack(c) => c
    case AtChildUpcall(c) => c
    case AtStart(c) => c
    case _ => 0
  }

  predicate Live(s: Sys, e: EnvId) { e in s.k.envs && e in s.code && s.k.envs[e].port.status == Running }

  /** An environment id no environment has, and none names as its parent (ids carry a generation number). */
  ghost predicate NewId(k: State, c: EnvId)
  {
    c != 0 && c !in k.envs && forall e :: e in k.envs ==> k.envs[e].parent != c
  }

  /** May e take action a: is it running, and is that what its code does next? */
  ghost predicate Issuable(s: Sys, a: Action)
  {
    && a.e in s.k.envs && a.e in s.code
    && var f := s.code[a.e].fork;
       var quiet := Live(s, a.e) && s.code[a.e].fault == NoFault;
       match a
       case Run(e) => s.k.envs[e].port.status == Runnable
       case Preempt(e) => Live(s, e)
       case Load(e, pn, off) =>
         Live(s, e) && off < PGSIZE && Slot(e, pn) in s.k.pte && U in s.k.pte[Slot(e, pn)].perm
       case Store(e, pn, off, v) =>
         && Live(s, e) && off < PGSIZE && (quiet || pn == XPN)
         && Slot(e, pn) in s.k.pte && {U, W} <= s.k.pte[Slot(e, pn)].perm
       case Fault(e, pn) =>
         && quiet && Region(pn) && Slot(e, pn) in s.k.pte
         && W !in s.k.pte[Slot(e, pn)].perm && COW in s.k.pte[Slot(e, pn)].perm
       case PfAlloc(e, page, _) => Live(s, e) && s.code[e].fault.AtAlloc? && Allocatable(s.k, page)
       case PfCopy(e) => Live(s, e) && s.code[e].fault.AtCopy? && s.code[e].fault.i < PGSIZE
       case PfMap(e, _) => Live(s, e) && s.code[e].fault.AtCopy? && s.code[e].fault.i == PGSIZE
       case ForkEnter(e) => quiet && f == NotForking
       case ForkXstack(e, page, _) => quiet && f == AtXstack && Allocatable(s.k, page)
       case ForkUpcall(e) => quiet && f == AtUpcall
       case ForkChild(e, child, _, _) =>
         quiet && f == AtExofork && (child.Some? ==> NewId(s.k, child.value))
       case ForkScan(e) => quiet && f.AtPage?
       case DupChild(e, _) => quiet && f.AtMapChild?
       case DupSelf(e, _) => quiet && f.AtMapSelf?
       case ChildXstack(e, page, _) => quiet && f.AtChildXstack? && Allocatable(s.k, page)
       case ChildUpcall(e) => quiet && f.AtChildUpcall?
       case ChildStart(e) => quiet && f.AtStart?
       case Recv(e) => quiet && f == NotForking
       case Send(e, _, _) => quiet && f == NotForking
       case Exit(e) => quiet && f == NotForking
  }

  /** The system call behind an action; actions that make none leave the kernel state alone. */
  ghost function Call(s: Sys, a: Action): Outcome
    requires Issuable(s, a)
  {
    var f := s.code[a.e].fork;
    match a
    case PfAlloc(e, page, tables) => SysPageAlloc(s.k, e, 0, PFTEMP, {U, P, W}, page, tables)
    case PfMap(e, tables) => SysPageMap(s.k, e, 0, PFTEMP, 0, VA(s.code[e].fault.pn), {U, P, W}, tables)
    case ForkXstack(e, page, tables) => SysPageAlloc(s.k, e, 0, UXSTACKTOP - PGSIZE, {U, P, W}, page, tables)
    case ForkUpcall(e) => SysEnvSetPgfaultUpcall(s.k, e, 0, UPCALL)
    case ForkChild(e, child, stale, tables) => SysExofork(s.k, e, child, stale, tables)
    case DupChild(e, tables) =>
      SysPageMap(s.k, e, 0, VA(f.pn), f.child, VA(f.pn), if f.cow then {U, P, COW} else {U, P}, tables)
    case DupSelf(e, tables) => SysPageMap(s.k, e, 0, VA(f.pn), 0, VA(f.pn), {U, P, COW}, tables)
    case ChildXstack(e, page, tables) =>
      SysPageAlloc(s.k, e, f.child, UXSTACKTOP - PGSIZE, {U, P, W}, page, tables)
    case ChildUpcall(e) => SysEnvSetPgfaultUpcall(s.k, e, f.child, UPCALL)
    case ChildStart(e) => SysEnvSetStatus(s.k, e, f.child, Runnable)
    case Recv(e) => SysIpcRecv(s.k, e, 0)
    case Send(e, to, value) => SysIpcTrySend(s.k, e, to, value, UTOP, {}, true)
    case Exit(e) => Done(EnvFree(s.k, e))
    case _ => Done(s.k)
  }

  /** An action that does not end in a panic; a refused send is retried, so it is left out as a no-op. */
  ghost predicate Enabled(s: Sys, a: Action) { Issuable(s, a) && Call(s, a).Done? }

  function WriteByte(k: State, page: PageId, off: nat, v: Byte): State
    requires off < PGSIZE
  {
    State(k.mem[page := Content(k, page)[off := v]], k.pte, k.envs)
  }

  function SetStatus(k: State, e: EnvId, status: Status): State
    requires e in k.envs
  {
    SetPort(k, e, k.envs[e].port.(status := status))
  }

  /** What e's own program moves on to. */
  ghost function NextCode(s: Sys, a: Action): Code
    requires Issuable(s, a)
  {
    var c := s.code[a.e];
    match a
    case Fault(_, pn) => c.(fault := AtAlloc(pn))
    case PfAlloc(_, _, _) => c.(fault := AtCopy(c.fault.pn, 0))
    case PfCopy(_) => c.(fault := AtCopy(c.fault.pn, c.fault.i + 1))
    case PfMap(_, _) => c.(fault := NoFault)
    case ForkEnter(_) => c.(fork := if c.handler then AtExofork else AtXstack)
    case ForkXstack(_, _, _) => c.(fork := AtUpcall)
    case ForkUpcall(_) => c.(fork := AtExofork, handler := true)
    case ForkChild(_, child, _, _) => c.(fork := if child.Some? then AtPage(child.value, FIRST) else NotForking)
    case ForkScan(e) => c.(fork :=
      if c.fork.pn >= XPN then AtChildXstack(c.fork.child)
      else var sl := Slot(e, c.fork.pn);
        if sl in s.k.pte && U in s.k.pte[sl].perm
        then AtMapChild(c.fork.child, c.fork.pn, W in s.k.pte[sl].perm || COW in s.k.pte[sl].perm)
        else AtPage(c.fork.child, c.fork.pn + 1))
    case DupChild(e, _) => c.(fork :=
      if c.fork.cow
      then AtMapSelf(c.fork.child, c.fork.pn,
                     Slot(e, c.fork.pn) in s.k.pte && W in s.k.pte[Slot(e, c.fork.pn)].perm)
      else AtPage(c.fork.child, c.fork.pn + 1))
    case DupSelf(_, _) => c.(fork := AtPage(c.fork.child, c.fork.pn + 1))
    case ChildXstack(_, _, _) => c.(fork := AtChildUpcall(c.fork.child))
    case ChildUpcall(_) => c.(fork := AtStart(c.fork.child))
    case ChildStart(_) => c.(fork := NotForking)
    case _ => c
  }

  ghost function NextKernel(s: Sys, a: Action): State
    requires Enabled(s, a)
  {
    match a
    case Run(e) => SetStatus(s.k, e, Running)
    case Preempt(e) => SetStatus(s.k, e, Runnable)
    case Store(e, pn, off, v) => WriteByte(s.k, s.k.pte[Slot(e, pn)].page, off, v)
    case PfCopy(e) =>
      var src, dst := Slot(e, s.code[e].fault.pn), Slot(e, PFPN);
      if src in s.k.pte && dst in s.k.pte
      then WriteByte(s.k, s.k.pte[dst].page, s.code[e].fault.i, Content(s.k, s.k.pte[src].page)[s.code[e].fault.i])
      else s.k
    case _ => Call(s, a).s
  }

  /** The whole system after action a; a new child starts with its parent's program at the exofork, returning 0, and an
      environment that exits is gone. */
  ghost function Do(s: Sys, a: Action): Sys
    requires Enabled(s, a)
  {
    var code := s.code[a.e := NextCode(s, a)];
    Sys(NextKernel(s, a),
        if a.Exit? then s.code - {a.e}
        else if a.ForkChild? && a.child.Some? then code[a.child.value := Code(NotForking, NoFault, s.code[a.e].handler)]
        else code)
  }

  ghost predicate Legal(s: Sys, acts: seq<Action>)
    decreases |acts|
  {
    acts == [] || (Enabled(s, acts[0]) && Legal(Do(s, acts[0]), acts[1..]))
  }

  ghost function Exec(s: Sys, acts: seq<Action>): Sys
    requires Legal(s, acts)
    decreases |acts|
  {
    if acts == [] then s else Exec(Do(s, acts[0]), acts[1..])
  }
}
