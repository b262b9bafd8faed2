/** ipc_send and ipc_recv of lib/ipc.c. */
module IpcLib {
  import opened Types
  import opened Layout
  import opened Ipc
  import opened KernelTypes = Kernel
  import opened Machine

  /** Returned after n yields; panicked after n yields; still trying. */
  datatype SendResult = Sent(n: nat) | Panicked(n: nat, error: Errno) | Trying

  /** The state attempt n finds: the first one, or the one in which the n-th sys_yield returns. */
  function Found(first: State, others: seq<State>, n: nat): State
    requires n <= |others|
  {
    if n == 0 then first else others[n - 1]
  }

  /** Attempt n, without a page. */
  function Attempt(first: State, others: seq<State>, n: nat, cur: EnvId, to: EnvId, value: int): Outcome
    requires n <= |others| && cur in Found(first, others, n).envs
  {
    SysIpcTrySend(Found(first, others, n), cur, to, value, UTOP, {}, true)
  }

  /** others are the states the caller finds when its calls of sys_yield return; with no more of them it is still trying.
      The message is delivered once, by the first attempt that finds the receiver blocked and empty; the attempts
      before it change nothing; and the only panic is for a receiver that does not exist. */
  method IpcSend(k: Kernel, to: EnvId, value: int, others: seq<State>) returns (r: SendResult)
    requires k.curenv in k.envs && forall n :: 0 <= n < |others| ==> k.curenv in others[n].envs
    modifies k
    ensures k.curenv == old(k.curenv)
    ensures match r
            case Sent(n) => n <= |others| && Attempt(old(k.Now()), others, n, k.curenv, to, value) == Done(k.Now())
            case Panicked(n, error) =>
              && n <= |others| && error == E_BAD_ENV && k.Now() == Found(old(k.Now()), others, n)
              && to != 0 && to !in k.envs
            case Trying => k.Now() == Found(old(k.Now()), others, |others|)
    ensures var before := match r case Sent(n) => n case Panicked(n, _) => n case Trying => |others| + 1;
      forall i :: 0 <= i < before && i <= |others| ==>
        Attempt(old(k.Now()), others, i, old(k.curenv), to, value) == Fail(E_IPC_NOT_RECV)
  {
    ghost var first := k.Now();
    var n := 0;
    while true
      invariant n <= |others| && k.curenv == old(k.curenv) && k.Now() == Found(first, others, n)
      invariant forall i :: 0 <= i < n ==> Attempt(first, others, i, k.curenv, to, value) == Fail(E_IPC_NOT_RECV)
      decreases |others| - n
    {
      var error := k.SysIpcTrySend(to, value, UTOP, {}, true);
      if error == None { return Sent(n); }
      if error.value != E_IPC_NOT_RECV { return Panicked(n, error.value); }
      if n == |others| { return Trying; }
      k.mem, k.pte, k.envs := others[n].mem, others[n].pte, others[n].envs;
      n := n + 1;
    }
  }

  /** With a null pg. woken is the state in which the caller next runs. If by then exactly a send has happened to it, its
      result is that send's; blocked is what it left behind. */
  method IpcRecv(k: Kernel, woken: State) returns (from: EnvId, value: int, ghost blocked: State)
    requires k.curenv in k.envs && k.curenv in woken.envs
    modifies k
    ensures k.curenv == old(k.curenv) && k.Now() == woken
    ensures SysIpcRecv(old(k.Now()), k.curenv, 0) == Done(blocked) && k.curenv in blocked.envs
    ensures Accepts(blocked.envs[k.curenv].port) && blocked.envs[k.curenv].port.status == NotRunnable
    ensures forall f, v :: woken.envs[k.curenv].port == Delivered(blocked.envs[k.curenv].port, f, v) ==> from == f && value == v
    ensures woken.envs[k.curenv].port.eax < 0 ==> from == 0 && value == woken.envs[k.curenv].port.eax
  {
    var error := k.SysIpcRecv(0);
    blocked := k.Now();
    k.mem, k.pte, k.envs := woken.mem, woken.pte, woken.envs;
    var r := k.envs[k.curenv].port.eax;
    from := if r < 0 then 0 else k.envs[k.curenv].port.from;
    value := if r < 0 then r else k.envs[k.curenv].port.value;
  }
}
