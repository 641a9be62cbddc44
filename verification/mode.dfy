/** The machine-mode controller and its ownership of the persistent MD2 process. */
module Mode {
  import opened Kernel
  import opened Protocol
  import Process

  const MODE_NONE := -1
  const MODE_MD0 := 0
  const MODE_MD1 := 1
  const MODE_MD2 := 2

  const SIGTERM: nat := 15

  class ModeController {
    const host: Host
    var currentMode: int
    var md2Pid: int
    var md2ShutdownRequested: bool

    /** What holds whenever no mode change is in progress. */
    ghost predicate Coherent() reads this {
      && currentMode in {MODE_NONE, MODE_MD0, MODE_MD2}
      && (currentMode == MODE_MD2 <==> md2Pid > 0)
      && (md2Pid > 0 || md2Pid == -1)
      && !md2ShutdownRequested
    }

    /** The phase of the reference protocol that the three variables stand for. */
    ghost function Rest(): Phase reads this {
      if currentMode == MODE_MD2 then Operating(md2Pid) else if currentMode == MODE_MD0 then Off else Down
    }

    ghost predicate Settled() reads this, host {
      host.Valid() && Coherent() && PhaseOf(host.log) == Rest()
    }

    /** MD1 has just succeeded and MD2 is about to be started. */
    ghost predicate Launching() reads this, host {
      && host.Valid() && PhaseOf(host.log) == Booted
      && currentMode == MODE_MD1 && md2Pid == -1 && !md2ShutdownRequested
    }

    constructor (host: Host)
      ensures this.host == host && Coherent() && currentMode == MODE_NONE
    {
      this.host := host;
      currentMode, md2Pid, md2ShutdownRequested := MODE_NONE, -1, false;
    }

    /** Run a one-shot program to its end: 0..255 is its exit status, -1 that it could not be
        started, less than -128 that a signal ended it. */
    method Exec(program: Program) returns (status: int, ghost acts: seq<Event>)
      requires host.Valid() && MayExec(PhaseOf(host.log), program)
      modifies host
      ensures host.Valid() && Performs(old(host.log), host.log, acts) && ExecActs(acts, program)
      ensures status == StatusOf(acts[|acts| - 1])
      ensures PhaseOf(host.log) == if program == Md0 then Off else if status == 0 then Booted else Down
      ensures TableOf(host.log) == TableOf(old(host.log)) && ChldDue(host.log) == ChldDue(old(host.log))
    {
      ghost var l0 := host.log;
      var pid := Process.Spawn(host, program);
      ghost var l1 := host.log;
      ExecStarts(l0, l1, program, Last(l1));
      acts := [Last(l1)];
      if pid < 0 {
        return -1, acts;
      }
      var r := Process.Wait(host, pid);
      ExecStops(l1, host.log, program, Last(host.log));
      PerformsThen(l0, l1, host.log, acts, [Last(host.log)]);
      acts := acts + [Last(host.log)];
      if r.WaitFailed? {
        return -1, acts;
      }
      match r.status
      case Exited(code) => return code, acts;
      case Signaled(sig) => return -128 - sig, acts;
    }

    /** Ask MD2 to leave and collect it. The child is signalled before it is waited for, and no
        failure branch loses it. */
    method StopMd2() returns (r: int, ghost acts: seq<Event>)
      requires host.Valid() && (md2Pid > 0 ==> PhaseOf(host.log) == Operating(md2Pid))
      modifies this`md2Pid, this`md2ShutdownRequested, host
      ensures host.Valid() && md2Pid == -1
      ensures old(md2Pid) <= 0 ==>
                r == 0 && acts == [] && md2ShutdownRequested == old(md2ShutdownRequested)
      ensures old(md2Pid) > 0 ==>
                && !md2ShutdownRequested && PhaseOf(host.log) == Halting
                && |acts| == 2 && acts[0] == Killed(old(md2Pid), Md2, Term) && CollectedMd2(acts[1], old(md2Pid))
                && (r == 0 <==> acts[1].proc.life in {Zombie(Exited(0)), Zombie(Signaled(SIGTERM))})
      ensures r == 0 || r == -1
      ensures Performs(old(host.log), host.log, acts)
      ensures TableOf(host.log) == TableOf(old(host.log)) && ChldDue(host.log) == ChldDue(old(host.log))
    {
      var pid := md2Pid;
      if pid <= 0 {
        md2Pid := -1;
        return 0, [];
      }
      md2ShutdownRequested := true;
      ghost var l0 := host.log;
      Md2Runs(l0, pid);
      var ok := Process.Signal(host, pid, Term);
      ghost var l1 := host.log;
      Md2Asked(l0, l1, pid);
      var outcome := Process.Wait(host, pid);
      Md2Left(l1, host.log, pid, Last(host.log));
      acts := [Killed(pid, Md2, Term), Last(host.log)];
      PerformsThen(l0, l1, host.log, [Killed(pid, Md2, Term)], [Last(host.log)]);
      assert [Killed(pid, Md2, Term)] + [Last(host.log)] == acts;
      md2Pid := -1;
      md2ShutdownRequested := false;
      if outcome.WaitFailed? {
        return -1, acts;
      }
      match outcome.status
      case Exited(code) => r := if code != 0 then -1 else 0;
      case Signaled(sig) => r := if sig == SIGTERM then 0 else -1;
    }

    /** Change the machine mode. From a settled state only NONE to MD1 and MD2 to MD0 do
        anything; the step from MD1 to MD2 is taken by the successful MD1 run itself. */
    method Start(mode: int) returns (ghost acts: seq<Event>)
      requires Settled() || (mode == MODE_MD2 && Launching())
      modifies this, host
      ensures Settled() && Performs(old(host.log), host.log, acts)
      ensures TableOf(host.log) == TableOf(old(host.log)) && ChldDue(host.log) == ChldDue(old(host.log))
      ensures old(Launching()) ==> acts != [] && acts == [acts[0]] && Launched(acts[0])
      ensures old(Settled()) ==>
                if mode == MODE_MD1 && old(currentMode) == MODE_NONE then
                  BootActs(acts, md2Pid) && currentMode == if md2Pid > 0 then MODE_MD2 else MODE_NONE
                else if mode == MODE_MD0 && old(currentMode) == MODE_MD2 then
                  HaltActs(acts, old(md2Pid)) && currentMode == MODE_MD0
                else
                  acts == [] && host.log == old(host.log) && unchanged(this)
      decreases if mode == MODE_MD1 then 2 else 0
    {
      acts := [];
      if mode == MODE_MD1 {
        if currentMode in {MODE_MD1, MODE_MD2, MODE_MD0} {
          return;
        }
        acts := EnterMd1();
      } else if mode == MODE_MD2 {
        if currentMode in {MODE_MD2, MODE_MD0} {
          return;
        }
        if currentMode != MODE_MD1 {
          return;
        }
        acts := EnterMd2();
      } else if mode == MODE_MD0 {
        if currentMode == MODE_MD0 {
          return;
        }
        if currentMode != MODE_MD2 {
          return;
        }
        acts := EnterMd0();
      }
    }

    /** MD2 was tried once, and it is current exactly if it runs. */
    ghost predicate Launched(e: Event) reads this {
      Md2Attempt(e, md2Pid) && currentMode == if md2Pid > 0 then MODE_MD2 else MODE_NONE
    }

    /** Start-up: one run of MD1; a clean one leads straight to MD2, any other back to no mode. */
    method EnterMd1() returns (ghost acts: seq<Event>)
      requires Settled() && currentMode == MODE_NONE
      modifies this, host
      ensures Settled() && Performs(old(host.log), host.log, acts)
      ensures TableOf(host.log) == TableOf(old(host.log)) && ChldDue(host.log) == ChldDue(old(host.log))
      ensures BootActs(acts, md2Pid) && currentMode == if md2Pid > 0 then MODE_MD2 else MODE_NONE
      decreases 1
    {
      ghost var l0 := host.log;
      currentMode := MODE_MD1;
      var status: int;
      status, acts := Exec(Md1);
      ghost var l1 := host.log;
      if status != 0 {
        currentMode := MODE_NONE;
        return;
      }
      ghost var more := Start(MODE_MD2);
      PerformsThen(l0, l1, host.log, acts, more);
      BootGoesOn(acts, more, md2Pid);
      acts := acts + more;
    }

    method EnterMd2() returns (ghost acts: seq<Event>)
      requires Launching()
      modifies this, host
      ensures Settled() && Performs(old(host.log), host.log, acts)
      ensures TableOf(host.log) == TableOf(old(host.log)) && ChldDue(host.log) == ChldDue(old(host.log))
      ensures acts != [] && acts == [acts[0]] && Launched(acts[0])
    {
      ghost var l0 := host.log;
      md2ShutdownRequested := false;
      md2Pid := Process.Spawn(host, Md2);
      Md2Tried(l0, host.log, Last(host.log));
      acts := [Last(host.log)];
      if md2Pid < 0 {
        md2Pid := -1;
        currentMode := MODE_NONE;
        return;
      }
      currentMode := MODE_MD2;
    }

    /** Shutdown: MD2 leaves first; MD0 runs whether or not MD2 left cleanly. */
    method EnterMd0() returns (ghost acts: seq<Event>)
      requires Settled() && currentMode == MODE_MD2
      modifies this, host
      ensures Settled() && Performs(old(host.log), host.log, acts)
      ensures TableOf(host.log) == TableOf(old(host.log)) && ChldDue(host.log) == ChldDue(old(host.log))
      ensures HaltActs(acts, old(md2Pid)) && currentMode == MODE_MD0
    {
      ghost var l0 := host.log;
      ghost var a, b;
      var stopped: int, status: int;
      stopped, a := StopMd2();
      ghost var l1 := host.log;
      currentMode := MODE_MD0;
      status, b := Exec(Md0);
      PerformsThen(l0, l1, host.log, a, b);
      acts := a + b;
      assert acts[2..] == b;
    }

    /** A child was reaped. Nothing changes unless it is MD2. */
    method ChildExit(pid: int, status: Status)
      modifies this
      ensures pid != old(md2Pid) ==> unchanged(this)
      ensures pid == old(md2Pid) ==>
                && md2Pid == -1 && !md2ShutdownRequested
                && currentMode == if !old(md2ShutdownRequested) && old(currentMode) == MODE_MD2 then MODE_NONE
                                  else old(currentMode)
    {
      if pid != md2Pid {
        return;
      }
      md2Pid := -1;
      if md2ShutdownRequested {
        md2ShutdownRequested := false;
        return;
      }
      if currentMode == MODE_MD2 {
        currentMode := MODE_NONE;
      }
    }
  }

  /** The result of a one-shot program, read off the event that ended the attempt. */
  function StatusOf(e: Event): int {
    if !e.Waited? || e.proc.life.Running? then -1
    else match e.proc.life.status
      case Exited(code) => code
      case Signaled(sig) => -128 - sig
  }

  lemma BootGoesOn(acts: seq<Event>, more: seq<Event>, md2Pid: int)
    requires ExecActs(acts, Md1) && StatusOf(acts[|acts| - 1]) == 0
    requires |more| == 1 && Md2Attempt(more[0], md2Pid)
    ensures BootActs(acts + more, md2Pid)
  {
    assert |acts| == 2 && (acts + more)[..2] == acts && (acts + more)[2] == more[0];
  }
}
