/** Vocabulary shared by the fork server and the tracing controller: the few
    POSIX notions both sides speak in (wait statuses, signal numbers, exit
    codes, the environment) and the shape of a system call's reply. */
module Posix {

  datatype Option<+T> = None | Some(value: T) {
    function GetOr(default: T): T {
      match this
      case Some(v) => v
      case None => default
    }
  }

  /** A wait status as the WIF* macros classify it; the bit-level encoding is
      not modelled. */
  datatype WaitStatus =
    | Exited(code: int)
    | Signaled(sig: int)
    | Stopped(sig: int)
    | Continued

  // Linux signal numbers (asm-generic, shared by arm64 and x86).
  const SIGTRAP: int := 5
  const SIGTERM: int := 15
  const SIGCONT: int := 18
  const SIGSTOP: int := 19

  const EXIT_SUCCESS: int := 0
  const EXIT_FAILURE: int := 1

  /** What one blocking system call gave back: its return value (a byte count
      for read and write, a pid for fork and waitpid, negative on failure) and,
      for waitpid, the status it stored. */
  datatype SysReply = SysReply(ret: int, status: WaitStatus)

  /** The process environment, as getenv sees it. */
  type Env = map<string, string>

  function Getenv(env: Env, name: string): (r: Option<string>)
    ensures r.Some? <==> name in env
    ensures r.Some? ==> r.value == env[name]
  {
    if name in env then Some(env[name]) else None
  }
}
