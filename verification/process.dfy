/** The wrappers around fork, waitpid and kill that the engine and the supervisor share. */
module Process {
  import opened Kernel

  datatype Outcome = WaitFailed | Ended(status: Status)

  method Spawn(host: Host, program: Program) returns (pid: int)
    requires host.Valid() && program != Orphan
    modifies host
    ensures host.Valid() && host.budget <= old(host.budget)
    ensures pid == -1 || (pid > 1 && pid !in old(host.w.children))
    ensures Does(old(host.log), host.log, if pid == -1 then ForkFailed(program) else Forked(pid, program))
  {
    pid := host.Fork(program);
  }

  /** A wait for an unreaped child collects exactly that child and never fails. */
  method Wait(host: Host, pid: int) returns (r: Outcome)
    requires host.Valid()
    modifies host
    ensures host.Valid() && host.budget <= old(host.budget)
    ensures pid <= 0 ==> r.WaitFailed? && host.log == old(host.log)
    ensures pid in old(host.w.children) ==>
              r.Ended? && Collects(old(host.log), host.log, pid, old(host.w.children[pid].program), r.status)
  {
    if pid in host.w.children {
      ChildrenArePositive(host.log, pid);
    }
    if pid <= 0 {
      return WaitFailed;
    }
    while true
      invariant host.Valid() && host.budget <= old(host.budget)
      invariant Drifts(old(host.log), host.log) && Persists(old(host.w), host.w)
      decreases host.budget
    {
      var reply := host.WaitChild(pid);
      match reply
      case Got(_, status) => return Ended(status);
      case Failed(errno) =>
        if errno.EINTR? {
          continue;
        }
        return WaitFailed;
      case Nothing => assert false;
    }
  }

  method Signal(host: Host, pid: int, sig: Signal) returns (ok: bool)
    requires host.Valid()
    modifies host
    ensures host.Valid() && host.budget <= old(host.budget)
    ensures pid <= 0 ==> !ok && host.log == old(host.log)
    ensures pid in old(host.w.children) ==>
              ok && Does(old(host.log), host.log, Killed(pid, old(host.w.children[pid].program), sig))
  {
    if pid in host.w.children {
      ChildrenArePositive(host.log, pid);
    }
    if pid <= 0 {
      return false;
    }
    ok := host.Signal(pid, sig);
  }

  /** Collect any zombie child; 0 only when a poll has found none. */
  method Reap(host: Host) returns (pid: int, status: Status)
    requires host.Valid()
    modifies host
    ensures host.Valid() && host.Load() <= old(host.Load())
    ensures pid >= 0
    ensures pid == 0 ==> Does(old(host.log), host.log, Polled)
    ensures pid > 0 ==>
              && host.log != [] && Does(old(host.log), host.log, Last(host.log)) && Last(host.log).Reaped?
              && Last(host.log).pid == pid && Last(host.log).proc.life == Zombie(status)
              && host.Load() < old(host.Load())
  {
    status := Exited(0);
    while true
      invariant host.Valid() && host.Load() <= old(host.Load())
      invariant Drifts(old(host.log), host.log)
      decreases host.budget
    {
      var reply := host.PollAny();
      match reply
      case Got(p, s) => return p, s;
      case Nothing => return 0, status;
      case Failed(errno) =>
        if errno.ECHILD? {
          return 0, status;
        }
    }
  }
}
