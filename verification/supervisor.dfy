/** The per-service supervisor HSV. Its two flags are set by a signal handler that may run
    between any two steps. */
module Supervisor {
  import opened Common
  import opened Kernel
  import opened Supervision
  import Process

  const MILLISECOND: nat := 1_000_000

  /** How a supervisor ended, if it did so while it was observed. */
  datatype Outcome = Refused | Ended | Unfinished

  class Hsv {
    const host: Host
    /** The mask that was inherited; the supervisor never changes it. */
    const blocked: set<Signal>
    var shuttingDown: bool
    var restartRequested: bool
    /** How often the handler may still run before SIGTERM arrives or, if it is blocked, before the run
        is no longer observed. It is arbitrary, and makes each run finite. */
    var patience: nat

    /** The state of the reference protocol. */
    ghost var st: State

    /** The flags are what the log says, and the protocol is kept so far. */
    ghost predicate Live() reads this, host {
      && host.Valid() && StateOf(host.log) == st && !st.stage.Broken?
      && shuttingDown == st.term && restartRequested == st.restart
      && !st.stage.Fresh? && st.blocked == blocked
    }

    /** A supervisor that SIGTERM can reach is observed to its end. */
    predicate Observed() reads this {
      patience > 0 || Term !in blocked
    }

    /** The protocol moves to this stage, and nothing else changes but flags that are set. */
    twostate predicate Moves(stage: Stage) reads this {
      && st == old(st).(stage := stage, term := st.term, restart := st.restart)
      && (old(st).term ==> st.term) && (old(st).restart ==> st.restart)
    }

    /** As Moves, but the clock goes on. */
    twostate predicate Passes(stage: Stage) reads this {
      && st == old(st).(stage := stage, term := st.term, restart := st.restart, clock := st.clock)
      && old(st).clock <= st.clock
    }

    /** Each deed allows for six runs of the handler, and each interruption for two. */
    ghost function Credit(): int reads this, host {
      patience + 6 * Deeds(host.log) - 2 * host.budget
    }

    /** The supervisor is so much ahead of what its patience asks for. */
    twostate predicate Earns(n: int) reads this, host {
      Credit() >= old(Credit()) + n
    }

    /** Nothing gives the environment more time or turns back the clock, and a shutdown request
        stays. */
    twostate predicate Spends() reads this, host {
      && patience <= old(patience) && host.budget <= old(host.budget)
      && (old(st).term ==> st.term) && old(st).clock <= st.clock
    }

    constructor (budget: nat, patience: nat, blocked: set<Signal>)
      ensures Live() && fresh(host) && this.blocked == blocked
      ensures host.log == [Masked(blocked)] && st == START.(stage := Idle(NotDue), blocked := blocked)
    {
      var k := new Host(budget);
      k.Record(Masked(blocked));
      host := k;
      this.blocked := blocked;
      shuttingDown, restartRequested := false, false;
      this.patience := patience;
      st := START.(stage := Idle(NotDue), blocked := blocked);
      DoesMoves([], k.log, Masked(blocked));
    }

    method Handle(sig: Signal)
      modifies this`shuttingDown, this`restartRequested
      ensures shuttingDown == (old(shuttingDown) || sig == Term)
      ensures restartRequested == (old(restartRequested) || sig == Usr1)
    {
      match sig
      case Term => shuttingDown := true;
      case Usr1 => restartRequested := true;
      case _ =>
    }

    /** The log went on by one step of the supervisor. */
    ghost method Move(l0: seq<Event>, e: Event)
      requires host.Valid() && StateOf(l0) == st && Does(l0, host.log, e) && !e.Delivered? && !e.Masked?
      requires !st.stage.Fresh? && !Next(st, e).stage.Broken? && st.blocked == blocked
      requires shuttingDown == st.term && restartRequested == Next(st, e).restart
      modifies this`st
      ensures Live() && st == Next(old(st), e) && Deeds(host.log) == Deeds(l0) + if Deed(e) then 1 else 0
    {
      DoesMoves(l0, host.log, e);
      DoesDeeds(l0, host.log, e);
      KeepsMask(st, e);
      st := Next(st, e);
    }

    // ---- The steps of the supervisor, each one system call or one run of the handler ----

    /** The handler runs for any of the pending signals. */
    method Deliver()
      requires Live()
      modifies this, host
      ensures Live() && Moves(old(st).stage) && Spends() && patience == old(patience) && Earns(0)
    {
      ghost var l0 := host.log;
      var sigs := host.Deliver({Term, Usr1});
      if sigs == {} {
        DriftIsNeutral(l0, host.log);
        DriftHasNoDeeds(l0, host.log);
      } else {
        DoesMoves(l0, host.log, Delivered(sigs));
        DoesDeeds(l0, host.log, Delivered(sigs));
        st := Next(st, Delivered(sigs));
      }
      if Term in sigs { Handle(Term); }
      if Usr1 in sigs { Handle(Usr1); }
    }

    method DeliverTerm()
      requires Live() && Term !in blocked
      modifies this, host
      ensures Live() && Moves(old(st).stage) && Spends() && patience == old(patience) && Earns(0)
      ensures shuttingDown
    {
      ghost var l0 := host.log;
      MaskHolds(l0);
      host.Record(Raised(Term));
      host.Record(Delivered({Term}));
      assert Front(host.log) == l0 + [Raised(Term)] && Front(Front(host.log)) == l0;
      DoesMoves(l0, host.log, Delivered({Term}));
      DoesDeeds(l0, host.log, Delivered({Term}));
      st := Next(st, Delivered({Term}));
      Handle(Term);
    }

    method Interrupt()
      requires Live()
      modifies this, host
      ensures Live() && Moves(old(st).stage) && Spends() && Earns(-1)
      ensures Observed() ==> shuttingDown || patience < old(patience)
    {
      Deliver();
      if patience > 0 {
        patience := patience - 1;
      } else if !shuttingDown && Term !in blocked {
        DeliverTerm();
      }
    }

    method SpawnRun() returns (pid: int)
      requires Live() && st.stage.Idle? && Ready(st.stage.pause, restartRequested) && st.late == 0
      modifies this, host
      ensures Live() && Spends() && Earns(5) && pid >= -1
      ensures st.stage == if pid < 0 then Idle(Due(0)) else Serving(pid, PERIOD)
      ensures (st.late > 0 ==> shuttingDown) && st.runs == old(st).runs + 1
    {
      Interrupt();
      ghost var l0 := host.log;
      pid := Process.Spawn(host, RunScript);
      Move(l0, Last(host.log));
    }

    method SpawnHook(hook: Hook, ghost final: bool) returns (pid: int)
      requires Live() && st.stage == Found(hook, final)
      modifies this, host
      ensures Live() && Spends() && Earns(5) && pid >= -1
      ensures Moves(if pid < 0 then AfterHook(hook, final, st) else InHook(pid, hook, final))
    {
      Interrupt();
      ghost var l0 := host.log;
      pid := Process.Spawn(host, ScriptOf(hook));
      Move(l0, Last(host.log));
    }

    /** access: is there such a hook? */
    method Access(hook: Hook, ghost final: bool) returns (found: bool)
      requires Live() && IsDue(hook, final)
      modifies this, host
      ensures Live() && Spends() && Earns(5) && Moves(Checked(hook, final, found, st))
    {
      Interrupt();
      ghost var l0 := host.log;
      found := *;
      host.Record(Accessed(ScriptOf(hook), found));
      assert Front(host.log) == l0;
      Move(l0, Last(host.log));
    }

    ghost predicate IsDue(hook: Hook, final: bool) reads this {
      if hook.FinishHook? then st.stage.FinishDue? && final
      else if final then st.stage.Closing? || (st.stage.Idle? && shuttingDown)
      else st.stage.HookDue?
    }

    /** The request is cleared before it is acted on; one that arrives later waits. */
    method TakeRestart()
      requires Live() && st.stage.Alive? && restartRequested
      modifies this, host
      ensures Live() && Spends() && Earns(5) && !restartRequested
      ensures st == old(st).(stage := Taking(old(st).stage.pid), term := st.term, restart := false)
    {
      Interrupt();
      ghost var l0 := host.log;
      restartRequested := false;
      host.Record(RestartTaken);
      assert Front(host.log) == l0;
      Move(l0, RestartTaken);
    }

    ghost predicate MayStop(pid: int) reads this {
      st.stage == Taking(pid) || (st.stage.Alive? && st.stage.pid == pid && shuttingDown && !st.stage.restart)
    }

    /** kill: the signal reaches the run script, which is an unreaped child. */
    method SendTerm(pid: int)
      requires Live() && MayStop(pid)
      modifies this, host
      ensures Live() && Spends() && Earns(5) && Moves(Stopping(pid, 0, old(st).stage.Taking?))
    {
      Interrupt();
      ghost var l0 := host.log;
      HeldChild(l0, pid, RunScript);
      var _ := host.Signal(pid, Term);
      Move(l0, Last(host.log));
    }

    method SendKill(pid: int)
      requires Live() && st.stage.Stopping? && st.stage.pid == pid && st.stage.polls == STOP_POLLS
      modifies this, host
      ensures Live() && Spends() && Earns(5)
      ensures st == old(st).(stage := Killing(pid, old(st).stage.restart), term := st.term, restart := st.restart,
                             kills := old(st).kills + 1)
    {
      Interrupt();
      ghost var l0 := host.log;
      HeldChild(l0, pid, RunScript);
      var _ := host.Signal(pid, Kill);
      Move(l0, Last(host.log));
    }

    /** waitpid with WNOHANG while the run is served. */
    method PollServing(pid: int) returns (r: Reply)
      requires Live() && PollDue(st) && st.stage.pid == pid
      modifies this, host
      ensures Live() && Spends() && Earns(5)
      ensures Moves(match r
                    case Got(_, _) => Idle(PauseAfter(st.restart, st.term))
                    case Failed(_) => old(st).stage
                    case Nothing => Alive(pid, st.restart, st.term))
      ensures r.Failed? ==> r.errno.EINTR? && host.budget < old(host.budget)
    {
      Interrupt();
      ghost var l0 := host.log;
      HeldChild(l0, pid, RunScript);
      r := host.PollChild(pid);
      ServingPolled(st, Last(host.log), pid);
      Move(l0, Last(host.log));
    }

    /** waitpid with WNOHANG while the run is being stopped. */
    method PollStopping(pid: int, ghost polls: nat, ghost restart: bool) returns (r: Reply)
      requires Live() && st.stage == Stopping(pid, polls, restart) && polls < STOP_POLLS
      modifies this, host
      ensures Live() && Spends() && Earns(5)
      ensures Moves(if r.Got? then (if restart then HookDue else Closing) else Stopping(pid, polls + 1, restart))
      ensures r.Failed? ==> r.errno.EINTR? && host.budget < old(host.budget)
    {
      Interrupt();
      ghost var l0 := host.log;
      HeldChild(l0, pid, RunScript);
      r := host.PollChild(pid);
      StoppingPolled(st, Last(host.log), pid, polls, restart);
      Move(l0, Last(host.log));
    }

    /** process_wait: wait for the child of this stage, whatever interrupts it. */
    method Await(pid: int, ghost program: Program)
      requires Live() && SlotOf(st.stage) == Held(pid, program) && (st.stage.InHook? || st.stage.Killing?)
      modifies this, host
      ensures Live() && Spends() && Earns(5) && Moves(OverStage(old(st).stage, st))
    {
      Interrupt();
      ghost var l0 := host.log;
      HeldChild(l0, pid, program);
      var _ := Process.Wait(host, pid);
      Move(l0, Last(host.log));
    }

    method Rest(seconds: nat, nanoseconds: nat) returns (done: bool, leftSeconds: nat, leftNanoseconds: nat)
      requires Live() && nanoseconds < SECOND && MayRest(st.stage, Duration(seconds, nanoseconds))
      modifies this, host
      ensures Live() && Spends() && Earns(if done then 0 else 2) && leftNanoseconds < SECOND
      ensures var slept := Duration(seconds, nanoseconds) - Duration(leftSeconds, leftNanoseconds);
              slept >= 0 && st == old(st).(stage := Rested(old(st).stage, slept), clock := old(st).clock + slept)
      ensures MayRest(st.stage, Duration(leftSeconds, leftNanoseconds))
      ensures if done then leftSeconds == leftNanoseconds == 0 else host.budget < old(host.budget)
    {
      ghost var l0 := host.log;
      done, leftSeconds, leftNanoseconds := host.Nanosleep(seconds, nanoseconds);
      RestStep(st, Last(host.log), Duration(seconds, nanoseconds));
      Move(l0, Last(host.log));
    }

    /** nanosleep. The handler may run between the test of a flag and the sleep, which then is not
        cut short. */
    method Nanosleep(seconds: nat, nanoseconds: nat) returns (done: bool, leftSeconds: nat, leftNanoseconds: nat)
      requires Live() && nanoseconds < SECOND && MayRest(st.stage, Duration(seconds, nanoseconds))
      modifies this, host
      ensures Live() && Spends() && RestedBy(st.clock - old(st).clock) && leftNanoseconds < SECOND
      ensures st.clock + Duration(leftSeconds, leftNanoseconds) == old(st).clock + Duration(seconds, nanoseconds)
      ensures MayRest(st.stage, Duration(leftSeconds, leftNanoseconds))
      ensures Earns(if done then -2 else 0)
      ensures if done then leftSeconds == leftNanoseconds == 0 else host.budget < old(host.budget)
    {
      Interrupt();
      done, leftSeconds, leftNanoseconds := Rest(seconds, nanoseconds);
      Interrupt();
    }

    /** Only the clock went on, by so many nanoseconds, and flags were set. */
    twostate predicate RestedBy(nanoseconds: int) reads this {
      && nanoseconds >= 0
      && st == old(st).(stage := Rested(old(st).stage, nanoseconds), term := st.term, restart := st.restart,
                        clock := old(st).clock + nanoseconds)
      && (old(st).term ==> st.term) && (old(st).restart ==> st.restart)
    }

    // ---- The supervisor's functions ----

    /** Sleep for the given time, or less if an interruption finds a flag set. The remaining time
        of an interrupted sleep is slept in the next round. */
    method SleepMs(milliseconds: nat)
      requires Live() && MayRest(st.stage, milliseconds * MILLISECOND)
      modifies this, host
      ensures Live() && Spends() && Earns(-2) && RestedBy(st.clock - old(st).clock)
      ensures st.clock <= old(st).clock + milliseconds * MILLISECOND
      ensures host.budget == old(host.budget) || (!shuttingDown && !restartRequested) ==>
                st.clock == old(st).clock + milliseconds * MILLISECOND
    {
      var seconds: nat, nanoseconds: nat := TimeSpec(milliseconds);
      while true
        invariant Live() && Spends() && Earns(0) && nanoseconds < SECOND
        invariant st == old(st).(stage := st.stage, term := st.term, restart := st.restart, clock := st.clock)
        invariant old(st).clock <= st.clock && (old(st).restart ==> st.restart)
        invariant || (st.stage == old(st).stage && st.clock == old(st).clock)
                  || st.stage == Rested(old(st).stage, st.clock - old(st).clock)
        invariant MayRest(st.stage, Duration(seconds, nanoseconds))
        invariant st.clock + Duration(seconds, nanoseconds) == old(st).clock + milliseconds * MILLISECOND
        decreases host.budget
      {
        var done, leftSeconds, leftNanoseconds := Nanosleep(seconds, nanoseconds);
        if done {
          return;
        }
        if shuttingDown || restartRequested {
          return;
        }
        seconds, nanoseconds := leftSeconds, leftNanoseconds;
      }
    }

    /** Try one hook; a missing one counts as tried. Whatever happens, the hook is over and
        collected on return. */
    method ExecScript(hook: Hook, ghost final: bool)
      requires Live() && IsDue(hook, final)
      modifies this, host
      ensures Live() && Spends() && Earns(5) && Moves(AfterHook(hook, final, st))
    {
      var found := Access(hook, final);
      if !found {
        return;
      }
      var pid := SpawnHook(hook, final);
      if pid < 0 {
        return;
      }
      Await(pid, ScriptOf(hook));
    }

    /** Stop the running service: SIGTERM, up to 50 polls a tenth of a second apart, then SIGKILL.
        On return the child is collected, at most five seconds of sleep were requested, and
        if no call was interrupted, a service that was killed had those five seconds in full. */
    method StopService(pid: int)
      requires Live() && MayStop(pid)
      modifies this, host
      ensures Live() && Spends() && Earns(5) && st.late == old(st).late && st.runs == old(st).runs
      ensures st.stage == if old(st).stage.Taking? then HookDue else Closing
      ensures st.clock <= old(st).clock + 5 * SECOND
      ensures old(st).kills <= st.kills <= old(st).kills + 1
      ensures st.kills > old(st).kills && host.budget == old(host.budget) ==> st.clock == old(st).clock + 5 * SECOND
    {
      SendTerm(pid);
      var over := AwaitStop(pid, old(st).stage.Taking?);
      if over {
        return;
      }
      SendKill(pid);
      Await(pid, RunScript);
    }

    /** The polls of a stopping service; over if one of them has collected it. */
    method AwaitStop(pid: int, ghost restart: bool) returns (over: bool)
      requires Live() && st.stage == Stopping(pid, 0, restart)
      modifies this, host
      ensures Live() && Spends() && Earns(0) && st.clock <= old(st).clock + 5 * SECOND
      ensures Passes(if !over then Stopping(pid, STOP_POLLS, restart) else if restart then HookDue else Closing)
      ensures !over && host.budget == old(host.budget) ==> st.clock == old(st).clock + 5 * SECOND
    {
      for elapsed := 0 to STOP_POLLS
        invariant Live() && Spends() && Earns(0) && Passes(Stopping(pid, elapsed, restart))
        invariant st.clock <= old(st).clock + elapsed * PERIOD
        invariant host.budget == old(host.budget) ==> st.clock == old(st).clock + elapsed * PERIOD
      {
        var reply := PollStopping(pid, elapsed, restart);
        match reply
        case Got(_, _) =>
          return true;
        case Failed(errno) =>
          if errno.EINTR? {
            continue;
          }
          return true;
        case Nothing =>
          SleepMs(100);
      }
      return false;
    }

    /** Supervise one run until it is over: by its own exit, or stopped for a restart with the
        stop hook tried, or stopped for the shutdown; or as long as it is observed. */
    method SuperviseRun(pid: int)
      requires Live() && PollDue(st) && st.stage.pid == pid
      modifies this, host
      ensures Live() && Spends() && Earns(0) && st.late == old(st).late && st.runs == old(st).runs
      ensures || st.stage == Idle(PauseAfter(restartRequested, shuttingDown)) || (st.stage.Closing? && shuttingDown)
              || (st.stage.Serving? && !Observed())
    {
      while Observed()
        invariant Live() && Spends() && Earns(0) && st.late == old(st).late && st.runs == old(st).runs
        invariant PollDue(st) && st.stage.pid == pid
        decreases patience, host.budget
      {
        var reply := PollServing(pid);
        match reply {
          case Got(_, _) => return;
          case Failed(errno) =>
            if errno.EINTR? {
              continue;
            }
            return;
          case Nothing =>
        }
        Interrupt();
        if restartRequested {
          TakeRestart();
          StopService(pid);
          ExecScript(StopHook, false);
          return;
        }
        Interrupt();
        if shuttingDown {
          StopService(pid);
          return;
        }
        SleepMs(100);
      }
    }

    /** One round of the main loop: one run is attempted. The next may start, without any delay when a
        request waited as soon as the last run and its hook were over, and otherwise, unless a
        flag is set by now, after a full second from then on: a restart alone, whose request was
        cleared when it was taken, does not skip the delay. */
    method Round() returns (leave: bool)
      requires Live() && RoundMayStart() && st.late == 0 && !shuttingDown
      modifies this, host
      ensures Live() && Spends() && Earns(1) && (st.late > 0 ==> shuttingDown) && st.runs == old(st).runs + 1
      ensures if leave then !Observed() || (shuttingDown && (st.stage.Idle? || st.stage.Closing?)) else RoundMayStart()
      ensures !leave && !restartRequested && !shuttingDown ==> st.stage == Idle(Due(SECOND))
    {
      var pid := SpawnRun();
      if pid < 0 {
        SleepMs(1000);
        return false;
      }
      SuperviseRun(pid);
      if !Observed() {
        return true;
      }
      Interrupt();
      if shuttingDown {
        return true;
      }
      Interrupt();
      if restartRequested {
        return false;
      }
      SleepMs(1000);
      return false;
    }

    ghost predicate RoundMayStart() reads this {
      st.stage.Idle? && (shuttingDown || Ready(st.stage.pause, restartRequested))
    }

    /** A run of the supervisor, from its start to its exit. Whatever the timing of the signals, the
        log it leaves is one of the reference protocol, with the finish attempt over. If SIGTERM is
        blocked, it has no exit: it is then observed for any finite time, and goes on. */
    method Supervise(service: string) returns (outcome: Outcome)
      requires Live() && st == START.(stage := Idle(NotDue), blocked := blocked)
      modifies this, host
      ensures Live()
      ensures outcome.Refused? <==> |service| + 1 + |"finish"| >= PATH_MAX
      ensures outcome.Refused? ==> host.log == old(host.log)
      ensures outcome.Ended? ==> Term !in blocked && st.stage == Done && exists i, j :: EndsAt(host.log, i, j)
      ensures outcome.Unfinished? ==> Term in blocked && !st.term && !LeavingFor(st.stage) && patience == 0
      ensures !outcome.Refused? && old(patience) > 0 ==> RunsFirst(host.log)
      ensures !outcome.Refused? ==>
                old(patience) - patience <= 6 * Deeds(host.log) + 2 * (old(host.budget) - host.budget)
    {
      if |service| + 1 + |"run"| >= PATH_MAX {
        return Refused;
      }
      if |service| + 1 + |"stop"| >= PATH_MAX {
        return Refused;
      }
      if |service| + 1 + |"finish"| >= PATH_MAX {
        return Refused;
      }
      var leave := false;
      while !leave && Observed()
        invariant Live() && Spends() && Earns(0) && (st.late > 0 ==> shuttingDown)
        invariant patience == old(patience) || st.runs > 0
        invariant if leave then !Observed() || (shuttingDown && (st.stage.Idle? || st.stage.Closing?))
                  else RoundMayStart()
        decreases !leave, patience
      {
        Interrupt();
        if shuttingDown {
          break;
        }
        leave := Round();
      }
      if Term in blocked {
        DeafSupervisor(host.log);
        if old(patience) > 0 {
          RunsAreDeeds(host.log);
          FirstDeed(host.log);
        }
        return Unfinished;
      }
      ExecScript(StopHook, true);
      ExecScript(FinishHook, true);
      Ending(host.log);
      TheEndIsADeed(host.log);
      FirstDeed(host.log);
      return Ended;
    }
  }

  lemma TheEndIsADeed(log: seq<Event>)
    requires exists i, j :: EndsAt(log, i, j)
    ensures Deeds(log) > 0
  {
    var i, j :| EndsAt(log, i, j);
    DeedIsCounted(log, j);
  }

  function Duration(seconds: nat, nanoseconds: nat): nat {
    seconds * SECOND + nanoseconds
  }

  /** The two parts of a request in milliseconds. */
  method TimeSpec(milliseconds: nat) returns (seconds: nat, nanoseconds: nat)
    ensures Duration(seconds, nanoseconds) == milliseconds * MILLISECOND && nanoseconds < SECOND
  {
    seconds, nanoseconds := milliseconds / 1000, milliseconds % 1000 * MILLISECOND;
  }

  lemma ServingPolled(s: State, e: Event, pid: int)
    requires PollDue(s) && s.stage.pid == pid
    ensures Collected(e, pid, RunScript) ==> Next(s, e) == s.(stage := Idle(PauseAfter(s.restart, s.term)))
    ensures e == Unready(pid, true) ==> Next(s, e) == s
    ensures e == Unready(pid, false) ==> Next(s, e) == s.(stage := Alive(pid, s.restart, s.term))
  {
  }

  lemma StoppingPolled(s: State, e: Event, pid: int, polls: nat, restart: bool)
    requires s.stage == Stopping(pid, polls, restart) && polls < STOP_POLLS
    ensures Collected(e, pid, RunScript) ==> Next(s, e) == s.(stage := if restart then HookDue else Closing)
    ensures e.Unready? && e.pid == pid ==> Next(s, e) == s.(stage := Stopping(pid, polls + 1, restart))
  {
  }

  /** Where may this be slept? */
  predicate MayRest(s: Stage, nanoseconds: nat) {
    || (s.Alive? && !s.restart && !s.term && nanoseconds <= PERIOD) || (s.Serving? && s.slept + nanoseconds <= PERIOD)
    || s.Stopping?
    || (s.Idle? && s.pause.Due? && s.pause.slept + nanoseconds <= SECOND)
  }

  /** A run that was polled and then slept on is served again; the delay goes by. */
  function Rested(s: Stage, nanoseconds: nat): Stage {
    match s
    case Alive(pid, _, _) => Serving(pid, nanoseconds)
    case Serving(pid, slept) => Serving(pid, slept + nanoseconds)
    case Idle(pause) => if pause.Due? then Idle(Due(pause.slept + nanoseconds)) else s
    case _ => s
  }

  lemma RestStep(s: State, e: Event, request: nat)
    requires MayRest(s.stage, request) && e.Slept? && e.nanoseconds <= request
    ensures Next(s, e) == s.(stage := Rested(s.stage, e.nanoseconds), clock := s.clock + e.nanoseconds)
    ensures MayRest(Rested(s.stage, e.nanoseconds), request - e.nanoseconds)
  {
  }

  /** Where a stage goes whose child is waited for until it is collected. */
  function OverStage(stage: Stage, s: State): Stage {
    match stage
    case Killing(_, again) => if again then HookDue else Closing
    case InHook(_, hook, final) => AfterHook(hook, final, s)
    case _ => stage
  }
}
