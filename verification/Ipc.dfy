/** The IPC fields of struct Env and what the two IPC system calls do to them. */
module Ipc {
  type EnvId = nat

  datatype Status = Free | Dying | Runnable | Running | NotRunnable

  datatype Errno = E_BAD_ENV | E_INVAL | E_NO_MEM | E_NO_FREE_ENV | E_IPC_NOT_RECV

  /** env_status, env_ipc_recving, env_ipc_from, env_ipc_value and the saved eax. */
  datatype Port = Port(status: Status, recving: bool, from: EnvId, value: int, eax: int)

  /** A blocked receiver that nobody has sent to yet. */
  predicate Accepts(p: Port) { p.recving && p.from == 0 }

  /** What a successful send leaves in the receiver. */
  function Delivered(p: Port, from: EnvId, value: int): Port
  {
    Port(Runnable, false, from, value, 0)
  }

  /** What sys_ipc_recv leaves in the caller before it gives up the CPU. */
  function Opened(p: Port): Port
  {
    p.(status := NotRunnable, recving := true, from := 0)
  }
}
