/** A reference for what PID 1 may do, stated on the log alone: a finite automaton for the
    machine modes and a replay of the HSV table. It knows nothing about the variables of the
    mode controller, the registry or the signal layer. */
module Protocol {
  import opened Kernel
  import opened HsvTable

  /** The signals that are blocked except while PID 1 sleeps. */
  const SHIELD: set<Signal> := {Chld, Term, Int}

  datatype Phase =
    | Starting                   // nothing is blocked yet
    | Asleep(rest: Phase)        // in sigsuspend: nothing is blocked
    | Down                       // no mode
    | Booting(pid: int)          // MD1 runs
    | Booted                     // MD1 exited with status 0
    | Operating(pid: int)        // MD2 runs
    | Leaving(pid: int)          // MD2 was asked to leave
    | Halting                    // MD2 was collected
    | PoweringOff(pid: int)      // MD0 runs
    | Off                        // MD0 is over
    | Broken                     // the protocol was violated

  predicate AtRest(p: Phase) {
    p.Down? || p.Operating? || p.Off?
  }

  predicate CleanBoot(e: Event) {
    e.Waited? && e.proc.program.Md1? && e.proc.life == Zombie(Exited(0))
  }

  /** Events of the service registry and the reaper that concern no machine mode. */
  predicate Calm(e: Event) {
    match e
    case Forked(_, program) => program.Hsv?
    case ForkFailed(program) => program.Hsv?
    case Killed(_, program, _) => program.Hsv?
    case Reaped(_, proc, _) => proc.program.Hsv? || proc.program.Orphan?
    case Polled => true
    case _ => false
  }

  /** The phase that a sleep interrupts. */
  function Awake(p: Phase): Phase {
    if p.Asleep? then p.rest else p
  }

  function Next(p: Phase, e: Event): Phase {
    if Ambient(e) then p
    else if AtRest(p) && Calm(e) then p
    else if AtRest(p) && e == Masked({}) then Asleep(p)
    else match p
      case Starting =>
        if e.Delivered? then p else if e == Masked(SHIELD) then Down else Broken
      case Asleep(rest) =>
        if e.Delivered? then p else if e == Masked(SHIELD) && AtRest(rest) then rest else Broken
      case Down =>
        if AttemptOf(e, Md1) then (if e.Forked? then Booting(e.pid) else Down) else Broken
      case Booting(pid) =>
        if e.Waited? && e.pid == pid && e.proc.program.Md1? then (if CleanBoot(e) then Booted else Down) else Broken
      case Booted =>
        if AttemptOf(e, Md2) then (if e.Forked? then Operating(e.pid) else Down) else Broken
      case Operating(pid) =>
        if e == Killed(pid, Md2, Term) then Leaving(pid)
        else if e.Reaped? && e.pid == pid && e.proc.program.Md2? then Down
        else Broken
      case Leaving(pid) =>
        if e.Waited? && e.pid == pid && e.proc.program.Md2? then Halting else Broken
      case Halting =>
        if AttemptOf(e, Md0) then (if e.Forked? then PoweringOff(e.pid) else Off) else Broken
      case PoweringOff(pid) =>
        if e.Waited? && e.pid == pid && e.proc.program.Md0? then Off else Broken
      case Off => Broken
      case Broken => Broken
  }

  /** Nobody goes to sleep who still owes a poll to a delivered SIGCHLD. */
  function Stepped(p: Phase, due: bool, e: Event): Phase {
    if due && e == Masked({}) then Broken else Next(p, e)
  }

  function PhaseOf(log: seq<Event>): Phase {
    if log == [] then Starting else Stepped(PhaseOf(Front(log)), ChldDue(Front(log)), Last(log))
  }

  ghost predicate Accepted(log: seq<Event>) {
    !PhaseOf(log).Broken?
  }

  function TableAfter(t: seq<Entry>, e: Event): seq<Entry> {
    match e
    case Forked(pid, program) => if program.Hsv? then t + [Entry(pid, program.service)] else t
    case Reaped(pid, _, _) => WithoutPid(t, pid)
    case _ => t
  }

  function TableOf(log: seq<Event>): seq<Entry> {
    if log == [] then [] else TableAfter(TableOf(Front(log)), Last(log))
  }

  /** The environment moves neither the phase, nor the table, nor the reaper's debt. */
  lemma {:induction false} DriftIsNeutral(l0: seq<Event>, l1: seq<Event>)
    requires Drifts(l0, l1)
    ensures PhaseOf(l1) == PhaseOf(l0) && TableOf(l1) == TableOf(l0) && ChldDue(l1) == ChldDue(l0)
    decreases |l1|
  {
    if |l0| < |l1| {
      assert Ambient(l1[|l1| - 1]);
      DriftIsNeutral(l0, Front(l1));
    } else {
      assert l0 == l1;
    }
  }

  lemma DoesMoves(l0: seq<Event>, l1: seq<Event>, e: Event)
    requires Does(l0, l1, e)
    ensures !(ChldDue(l0) && e == Masked({})) ==> PhaseOf(l1) == Next(PhaseOf(l0), e)
    ensures TableOf(l1) == TableAfter(TableOf(l0), e)
    ensures ChldDue(l1) == DebtAfter(ChldDue(l0), e)
  {
    DriftIsNeutral(l0, Front(l1));
  }

  // ---- What a process does, without the environment's part ----

  function Acts(log: seq<Event>): seq<Event> {
    if log == [] then []
    else if Ambient(Last(log)) then Acts(Front(log))
    else Acts(Front(log)) + [Last(log)]
  }

  /** Between the two logs the process did exactly this, in this order. */
  ghost predicate Performs(l0: seq<Event>, l1: seq<Event>, acts: seq<Event>) {
    l0 <= l1 && Acts(l1) == Acts(l0) + acts
  }

  lemma {:induction false} DriftPerforms(l0: seq<Event>, l1: seq<Event>)
    requires Drifts(l0, l1)
    ensures Acts(l1) == Acts(l0)
    decreases |l1|
  {
    if |l0| < |l1| {
      assert Ambient(Last(l1));
      DriftPerforms(l0, Front(l1));
    } else {
      assert l0 == l1;
    }
  }

  lemma DoesPerforms(l0: seq<Event>, l1: seq<Event>, e: Event)
    requires Does(l0, l1, e) && !Ambient(e)
    ensures Performs(l0, l1, [e])
  {
    DriftPerforms(l0, Front(l1));
  }

  lemma PerformsThen(l0: seq<Event>, l1: seq<Event>, l2: seq<Event>, a: seq<Event>, b: seq<Event>)
    requires Performs(l0, l1, a) && Performs(l1, l2, b)
    ensures Performs(l0, l2, a + b)
  {
    assert Acts(l0) + (a + b) == Acts(l0) + a + b;
  }

  lemma PerformsOneMore(l0: seq<Event>, l1: seq<Event>, l2: seq<Event>, a: seq<Event>, e: Event)
    requires Performs(l0, l1, a) && Does(l1, l2, e) && !Ambient(e)
    ensures Performs(l0, l2, a + [e])
  {
    DoesPerforms(l1, l2, e);
    PerformsThen(l0, l1, l2, a, [e]);
  }

  /** One program was started and then collected. */
  predicate OneRun(acts: seq<Event>, program: Program) {
    && |acts| == 2 && acts[0].Forked? && acts[0].program == program
    && acts[1].Waited? && acts[1].pid == acts[0].pid && acts[1].proc.program == program
  }

  /** One attempt to run a program to its end. */
  predicate ExecActs(acts: seq<Event>, program: Program) {
    acts == [ForkFailed(program)] || OneRun(acts, program)
  }

  /** Everything that a start of the machine does: one attempt to run MD1, and after a clean end, but only
      then, one attempt to start MD2, which succeeds exactly if there is an MD2 then. */
  predicate BootActs(acts: seq<Event>, md2Pid: int) {
    || (ExecActs(acts, Md1) && !CleanBoot(acts[|acts| - 1]) && md2Pid == -1)
    || (|acts| == 3 && OneRun(acts[..2], Md1) && CleanBoot(acts[1]) && Md2Attempt(acts[2], md2Pid))
  }

  predicate Md2Attempt(e: Event, md2Pid: int) {
    if md2Pid > 0 then e == Forked(md2Pid, Md2) else e == ForkFailed(Md2) && md2Pid == -1
  }

  /** Everything that a shutdown of the machine does: MD2 is sent SIGTERM and collected, and there is one
      attempt to run MD0. */
  predicate HaltActs(acts: seq<Event>, md2Pid: int) {
    && |acts| >= 3 && acts[0] == Killed(md2Pid, Md2, Term) && CollectedMd2(acts[1], md2Pid)
    && ExecActs(acts[2..], Md0)
  }

  /** The last step. */
  lemma FrontStep(log: seq<Event>)
    requires Accepted(log) && log != []
    ensures Accepted(Front(log)) && PhaseOf(log) == Next(PhaseOf(Front(log)), Last(log))
  {
    BrokenStays(Last(log));
  }

  lemma BrokenStays(e: Event)
    ensures Next(Broken, e) == Broken
  {
  }

  // ---- What single actions do ----

  /** The phase in which a one-shot program runs. */
  function RunningPhase(program: Program, pid: int): Phase {
    if program.Md0? then PoweringOff(pid) else Booting(pid)
  }

  predicate MayExec(p: Phase, program: Program) {
    (program.Md1? && p == Down) || (program.Md0? && p == Halting)
  }

  lemma ExecStep(p: Phase, e: Event, program: Program)
    requires MayExec(p, program) && AttemptOf(e, program)
    ensures Next(p, e) == if e.Forked? then RunningPhase(program, e.pid) else if program.Md0? then Off else Down
  {
  }

  lemma ExecStarts(l0: seq<Event>, l1: seq<Event>, program: Program, e: Event)
    requires Does(l0, l1, e) && AttemptOf(e, program) && MayExec(PhaseOf(l0), program) && Legal(l1)
    ensures PhaseOf(l1) ==
              if e.Forked? then RunningPhase(program, e.pid) else if program.Md0? then Off else Down
    ensures TableOf(l1) == TableOf(l0) && ChldDue(l1) == ChldDue(l0) && l0 <= l1
    ensures e.Forked? ==> Runs(Replay(l1), e.pid, program)
    ensures Performs(l0, l1, [e])
  {
    DoesMoves(l0, l1, e);
    DoesPerforms(l0, l1, e);
    ExecStep(PhaseOf(l0), e, program);
  }

  lemma ExecStops(l1: seq<Event>, l2: seq<Event>, program: Program, e: Event)
    requires Does(l1, l2, e) && e.Waited? && e.proc.program == program && (program.Md0? || program.Md1?)
    requires PhaseOf(l1) == RunningPhase(program, e.pid)
    ensures PhaseOf(l2) == if program.Md0? then Off else if CleanBoot(e) then Booted else Down
    ensures TableOf(l2) == TableOf(l1) && ChldDue(l2) == ChldDue(l1) && Performs(l1, l2, [e])
  {
    DoesMoves(l1, l2, e);
    DoesPerforms(l1, l2, e);
  }

  lemma Md2Runs(log: seq<Event>, pid: int)
    requires Legal(log) && (PhaseOf(log) == Operating(pid) || PhaseOf(log) == Leaving(pid))
    ensures Runs(Replay(log), pid, Md2)
  {
    Ownership(log);
  }

  lemma Md2Asked(l0: seq<Event>, l1: seq<Event>, pid: int)
    requires Does(l0, l1, Killed(pid, Md2, Term)) && PhaseOf(l0) == Operating(pid) && Legal(l1)
    ensures PhaseOf(l1) == Leaving(pid) && Runs(Replay(l1), pid, Md2)
    ensures TableOf(l1) == TableOf(l0) && ChldDue(l1) == ChldDue(l0) && l0 <= l1
    ensures Performs(l0, l1, [Killed(pid, Md2, Term)])
  {
    DoesMoves(l0, l1, Killed(pid, Md2, Term));
    DoesPerforms(l0, l1, Killed(pid, Md2, Term));
    Md2Runs(l1, pid);
  }

  lemma Md2Left(l1: seq<Event>, l2: seq<Event>, pid: int, e: Event)
    requires Does(l1, l2, e) && CollectedMd2(e, pid) && PhaseOf(l1) == Leaving(pid)
    ensures PhaseOf(l2) == Halting && TableOf(l2) == TableOf(l1) && ChldDue(l2) == ChldDue(l1)
    ensures Performs(l1, l2, [e])
  {
    DoesMoves(l1, l2, e);
    DoesPerforms(l1, l2, e);
  }

  lemma Md2Tried(l0: seq<Event>, l1: seq<Event>, e: Event)
    requires Does(l0, l1, e) && AttemptOf(e, Md2) && PhaseOf(l0) == Booted
    ensures PhaseOf(l1) == if e.Forked? then Operating(e.pid) else Down
    ensures TableOf(l1) == TableOf(l0) && ChldDue(l1) == ChldDue(l0) && Performs(l0, l1, [e])
  {
    DoesMoves(l0, l1, e);
    DoesPerforms(l0, l1, e);
  }

  /** A child was collected by the reaper. */
  lemma ReapMoves(l0: seq<Event>, l1: seq<Event>, e: Event)
    requires Does(l0, l1, e) && e.Reaped? && AtRest(PhaseOf(l0)) && Accepted(l0) && Legal(l1)
    ensures PhaseOf(l1) == if PhaseOf(l0) == Operating(e.pid) then Down else PhaseOf(l0)
    ensures TableOf(l1) == WithoutPid(TableOf(l0), e.pid) && ChldDue(l1) == ChldDue(l0)
    ensures Performs(l0, l1, [e])
  {
    DoesPerforms(l0, l1, e);
    DriftIsNeutral(l0, Front(l1));
    Ownership(Front(l1));
    assert Explained(PhaseOf(l0), TableOf(l0), e.pid, e.proc.program);
    DoesMoves(l0, l1, e);
  }

  // ---- Ownership ----

  predicate Explained(p: Phase, t: seq<Entry>, pid: int, program: Program) {
    match program
    case Hsv(service) => Entry(pid, service) in t
    case Md1 => p == Booting(pid)
    case Md2 => Awake(p) == Operating(pid) || p == Leaving(pid)
    case Md0 => p == PoweringOff(pid)
    case Orphan => true
    case _ => false
  }

  /** Whose the unreaped children are: the MD programs belong to the phase, the HSVs to the
      table, entry by entry, and every other child is an adopted orphan. */
  ghost predicate OwnsExactly(p: Phase, t: seq<Entry>, w: World) {
    && DistinctPids(t)
    && (forall e :: e in t ==> Runs(w, e.pid, Hsv(e.service)))
    && (forall pid :: pid in w.children ==> Explained(p, t, pid, w.children[pid].program))
    && OwnsModes(p, w)
  }

  predicate Runs(w: World, pid: int, program: Program) {
    pid in w.children && w.children[pid].program == program
  }

  predicate OwnsModes(p: Phase, w: World) {
    match Awake(p)
    case Booting(pid) => Runs(w, pid, Md1)
    case Operating(pid) => Runs(w, pid, Md2)
    case Leaving(pid) => Runs(w, pid, Md2)
    case PoweringOff(pid) => Runs(w, pid, Md0)
    case _ => true
  }

  lemma ForkKeepsOwnership(p: Phase, t: seq<Entry>, w: World, pid: int, program: Program)
    requires OwnsExactly(p, t, w) && pid !in w.children
    requires !Next(p, Forked(pid, program)).Broken?
    ensures var e := Forked(pid, program); OwnsExactly(Next(p, e), TableAfter(t, e), Apply(w, e))
  {
    var e := Forked(pid, program);
    var p', t', w' := Next(p, e), TableAfter(t, e), Apply(w, e);
    ForkIsTracked(p, t, pid, program);
    assert forall i :: 0 <= i < |t| ==> t[i] in t;
    forall q | q in w'.children ensures Explained(p', t', q, w'.children[q].program) {
      assert q != pid ==> Explained(p, t, q, w.children[q].program);
    }
    forall x | x in t' ensures Runs(w', x.pid, Hsv(x.service)) {
      assert x in t || x == Entry(pid, program.service);
    }
  }

  lemma ForkIsTracked(p: Phase, t: seq<Entry>, pid: int, program: Program)
    requires !Next(p, Forked(pid, program)).Broken?
    ensures var e := Forked(pid, program);
            && Explained(Next(p, e), TableAfter(t, e), pid, program)
            && (if program.Hsv? then Next(p, e) == p && TableAfter(t, e) == t + [Entry(pid, program.service)]
                else TableAfter(t, e) == t && Owner(p).1 == Orphan && Owner(Next(p, e)) == (pid, program))
  {
  }

  lemma WaitKeepsOwnership(p: Phase, t: seq<Entry>, w: World, e: Event)
    requires OwnsExactly(p, t, w) && Enabled(w, e) && e.Waited? && !Next(p, e).Broken?
    ensures OwnsExactly(Next(p, e), t, Apply(w, e))
  {
    assert Apply(w, e).children == w.children - {e.pid};
    assert !e.proc.program.Hsv?;
    assert forall x :: x in t ==> Runs(w, x.pid, Hsv(x.service)) && x.pid != e.pid;
  }

  lemma ReapKeepsOwnership(p: Phase, t: seq<Entry>, w: World, e: Event)
    requires OwnsExactly(p, t, w) && Enabled(w, e) && e.Reaped? && !Next(p, e).Broken?
    ensures OwnsExactly(Next(p, e), WithoutPid(t, e.pid), Apply(w, e))
  {
    var p', t', w' := Next(p, e), WithoutPid(t, e.pid), Apply(w, e);
    assert w'.children == w.children - {e.pid};
    WithoutPidKeepsOthers(t, e.pid);
    ReapEndsOne(p, e);
    assert Explained(p, t, e.pid, e.proc.program);
    forall x | x in t' ensures Runs(w', x.pid, Hsv(x.service)) {
      assert x in t && x.pid != e.pid;
    }
    forall pid | pid in w'.children ensures Explained(p', t', pid, w'.children[pid].program) {
      assert Explained(p, t, pid, w.children[pid].program);
    }
  }

  lemma ReapEndsOne(p: Phase, e: Event)
    requires e.Reaped? && !Next(p, e).Broken?
    ensures AtRest(p) && AtRest(Next(p, e))
    ensures if e.proc.program.Md2? then Owner(p) == (e.pid, Md2) && Next(p, e) == Down else Next(p, e) == p
  {
  }

  lemma OthersKeepOwnership(p: Phase, t: seq<Entry>, w: World, e: Event)
    requires OwnsExactly(p, t, w) && Enabled(w, e) && !Next(p, e).Broken?
    requires !e.Forked? && !e.Waited? && !e.Reaped?
    ensures OwnsExactly(Next(p, e), TableAfter(t, e), Apply(w, e))
  {
    var p', w' := Next(p, e), Apply(w, e);
    OthersKeepChildren(p, w, e);
    forall pid | pid in w'.children ensures Explained(p', t, pid, w'.children[pid].program) {
      assert w'.children[pid].program != Orphan ==>
               pid in w.children && Explained(p, t, pid, w.children[pid].program);
    }
  }

  /** Whom a phase owns. */
  function Owner(p: Phase): (int, Program) {
    match Awake(p)
    case Booting(pid) => (pid, Md1)
    case Operating(pid) => (pid, Md2)
    case Leaving(pid) => (pid, Md2)
    case PoweringOff(pid) => (pid, Md0)
    case _ => (0, Orphan)
  }

  lemma OthersKeepChildren(p: Phase, w: World, e: Event)
    requires Enabled(w, e) && !Next(p, e).Broken? && !e.Forked? && !e.Waited? && !e.Reaped?
    ensures forall pid :: pid in w.children ==> Runs(Apply(w, e), pid, w.children[pid].program)
    ensures forall pid :: pid in Apply(w, e).children && Apply(w, e).children[pid].program != Orphan ==>
              Runs(w, pid, Apply(w, e).children[pid].program)
    ensures Owner(Next(p, e)) == Owner(p)
  {
  }

  /** PID ownership over every run, under any reuse of process identifiers and any adoption:
      what the phase and the table name are exactly the unreaped children that were
      forked for them. */
  lemma {:induction false} Ownership(log: seq<Event>)
    requires Legal(log) && Accepted(log)
    ensures OwnsExactly(PhaseOf(log), TableOf(log), Replay(log))
  {
    if log != [] {
      FrontStep(log);
      Ownership(Front(log));
      var p, t, w := PhaseOf(Front(log)), TableOf(Front(log)), Replay(Front(log));
      var e := Last(log);
      if e.Forked? {
        ForkKeepsOwnership(p, t, w, e.pid, e.program);
      } else if e.Waited? {
        WaitKeepsOwnership(p, t, w, e);
      } else if e.Reaped? {
        ReapKeepsOwnership(p, t, w, e);
      } else {
        OthersKeepOwnership(p, t, w, e);
      }
    }
  }

  lemma {:induction false} AcceptedPrefix(log: seq<Event>, n: nat)
    requires n <= |log|
    ensures Accepted(log) ==> Accepted(log[..n])
    ensures Legal(log) ==> Legal(log[..n])
    decreases |log|
  {
    if n < |log| {
      if Accepted(log) { FrontStep(log); }
      AcceptedPrefix(Front(log), n);
      assert Front(log)[..n] == log[..n];
    } else {
      assert log[..n] == log;
    }
  }

  /** Adopting a process lists nothing: the table knows only what this process forked itself. */
  lemma {:induction false} UnforkedIsUnlisted(log: seq<Event>, service: string)
    requires forall i :: 0 <= i < |log| ==> !(log[i].Forked? && log[i].program == Hsv(service))
    ensures !HasService(TableOf(log), service)
  {
    if log != [] {
      var t, e := TableOf(Front(log)), Last(log);
      UnforkedIsUnlisted(Front(log), service);
      if e.Reaped? {
        WithoutPidAddsNone(t, e.pid);
        assert forall i :: 0 <= i < |TableOf(log)| ==> TableOf(log)[i] in TableOf(log);
      }
    }
  }

  // ---- Reaping ----

  /** Everything that the reap loop does: it collects children, and stops when a poll finds none. */
  predicate ReapActs(acts: seq<Event>) {
    && acts != [] && acts[|acts| - 1] == Polled
    && forall i :: 0 <= i < |acts| - 1 ==> acts[i].Reaped?
  }

  /** Was a child with this pid collected? */
  predicate Loses(acts: seq<Event>, pid: int) {
    exists i :: 0 <= i < |acts| && acts[i].Reaped? && acts[i].pid == pid
  }

  /** The table after all these events. */
  function TableThrough(t: seq<Entry>, acts: seq<Event>): seq<Entry> {
    if acts == [] then t else TableAfter(TableThrough(t, Front(acts)), Last(acts))
  }

  /** After collections it has exactly the entries whose children were not collected. */
  lemma {:induction false} TableThroughIs(t: seq<Entry>, acts: seq<Event>)
    requires DistinctPids(t) && forall i :: 0 <= i < |acts| ==> acts[i].Reaped? || acts[i].Polled?
    ensures DistinctPids(TableThrough(t, acts))
    ensures forall e :: e in TableThrough(t, acts) <==> e in t && !Loses(acts, e.pid)
  {
    if acts != [] {
      var before, last := Front(acts), Last(acts);
      TableThroughIs(t, before);
      if last.Reaped? {
        WithoutPidKeepsOthers(TableThrough(t, before), last.pid);
      }
      forall pid ensures Loses(acts, pid) <==> Loses(before, pid) || (last.Reaped? && last.pid == pid) {
        LosesOneMore(acts, pid);
      }
    }
  }

  lemma LosesOneMore(acts: seq<Event>, pid: int)
    requires acts != []
    ensures Loses(acts, pid) <==> Loses(Front(acts), pid) || (Last(acts).Reaped? && Last(acts).pid == pid)
  {
    assert forall i :: 0 <= i < |acts| - 1 ==> Front(acts)[i] == acts[i];
  }

  /** Every signal PID 1 ever sends hits MD2 or the HSV that the table of that moment
      lists under that pid; none reaches a process that is not its unreaped child. */
  lemma KillsHitOwnChildren(log: seq<Event>, i: nat)
    requires Legal(log) && Accepted(log) && i < |log|
    ensures !log[i].Strayed?
    ensures log[i].Killed? ==>
              || (log[i].program == Md2 && log[i].sig == Term && PhaseOf(log[..i]) == Operating(log[i].pid))
              || (log[i].program.Hsv? && Entry(log[i].pid, log[i].program.service) in TableOf(log[..i]))
  {
    AcceptedPrefix(log, i);
    AcceptedPrefix(log, i + 1);
    assert Front(log[..i + 1]) == log[..i] && Last(log[..i + 1]) == log[i];
    Ownership(log[..i]);
  }

  /** One collected child changes the state of at most one subsystem: the phase for MD2,
      one entry of the table for an HSV, nothing for an orphan. */
  lemma OneSubsystemPerChild(log: seq<Event>)
    requires Legal(log) && Accepted(log) && log != [] && Last(log).Reaped?
    ensures var p, t := PhaseOf(Front(log)), TableOf(Front(log));
            var pid, program := Last(log).pid, Last(log).proc.program;
            && PhaseOf(log) == (if program.Md2? then Down else p)
            && (program.Md2? ==> p == Operating(pid))
            && (if program.Hsv? then OneEntryLess(t, TableOf(log), Entry(pid, program.service)) else TableOf(log) == t)
  {
    Ownership(Front(log));
    ReapingOne(PhaseOf(Front(log)), TableOf(Front(log)), Replay(Front(log)), Last(log).pid, Last(log).proc.program);
  }

  lemma ReapingOne(p: Phase, t: seq<Entry>, w: World, pid: int, program: Program)
    requires OwnsExactly(p, t, w) && Runs(w, pid, program)
    ensures if program.Hsv? then OneEntryLess(t, WithoutPid(t, pid), Entry(pid, program.service))
            else WithoutPid(t, pid) == t
  {
    assert Explained(p, t, pid, program);
    if program.Hsv? {
      var i: nat :| i < |t| && t[i] == Entry(pid, program.service);
      WithoutPidRemovesFirst(t, pid, i);
    } else {
      assert forall i :: 0 <= i < |t| ==> t[i] in t && Runs(w, t[i].pid, Hsv(t[i].service));
      WithoutAbsentPid(t, pid);
    }
  }

  ghost predicate OneEntryLess(t: seq<Entry>, t': seq<Entry>, e: Entry) {
    exists i: nat :: i < |t| && t[i] == e && t' == Removed(t, i)
  }

  // ---- The language of mode traces ----

  ghost predicate OnlyAmbient(log: seq<Event>, from: int, to: int)
    requires 0 <= from && to <= |log|
  {
    forall k :: from <= k < to ==> Ambient(log[k])
  }

  /** What the log says about how its phase was reached; i and j index the last steps of the
      process that concern a mode. */
  ghost predicate Since(log: seq<Event>, i: int, e: Event) {
    0 <= i < |log| && log[i] == e && OnlyAmbient(log, i + 1, |log|)
  }

  ghost predicate History(log: seq<Event>) {
    match PhaseOf(log)
    case Booting(pid) => exists i :: Since(log, i, Forked(pid, Md1))
    case Booted => exists i :: 0 <= i < |log| && CleanBoot(log[i]) && OnlyAmbient(log, i + 1, |log|)
    case Leaving(pid) => exists i :: Since(log, i, Killed(pid, Md2, Term))
    case Halting => exists i :: StoppedMd2(log, i, |log|)
    case _ => true
  }

  /** At i MD2 was sent SIGTERM, at some later j it was collected, and nothing but the
      environment acted in between or from then until n. */
  ghost predicate StoppedMd2(log: seq<Event>, i: int, n: int)
    requires n <= |log|
  {
    && 0 <= i < n && log[i].Killed? && log[i].program == Md2 && log[i].sig == Term
    && exists j :: i < j < n && CollectedMd2(log[j], log[i].pid)
                   && OnlyAmbient(log, i + 1, j) && OnlyAmbient(log, j + 1, n)
  }

  predicate CollectedMd2(e: Event, pid: int) {
    e.Waited? && e.pid == pid && e.proc.program == Md2
  }

  lemma AmbientKeepsHistory(l: seq<Event>, e: Event)
    requires History(l) && Ambient(e)
    ensures History(l + [e])
  {
    var log, n := l + [e], |l|;
    assert Front(log) == l && PhaseOf(log) == PhaseOf(l);
    match PhaseOf(l)
    case Booting(pid) => var i :| Since(l, i, Forked(pid, Md1)); assert Since(log, i, Forked(pid, Md1));
    case Booted =>
      var i :| 0 <= i < n && CleanBoot(l[i]) && OnlyAmbient(l, i + 1, n);
      assert CleanBoot(log[i]) && OnlyAmbient(log, i + 1, n + 1);
    case Leaving(pid) => var i :| Since(l, i, Killed(pid, Md2, Term)); assert Since(log, i, Killed(pid, Md2, Term));
    case Halting => var i :| StoppedMd2(l, i, n); StoppedMd2Extends(l, i, e);
    case _ =>
  }

  lemma StoppedMd2Extends(l: seq<Event>, i: int, e: Event)
    requires StoppedMd2(l, i, |l|) && Ambient(e)
    ensures StoppedMd2(l + [e], i, |l| + 1)
  {
    var log, n := l + [e], |l|;
    var j :| i < j < n && CollectedMd2(l[j], l[i].pid) && OnlyAmbient(l, i + 1, j) && OnlyAmbient(l, j + 1, n);
    assert CollectedMd2(log[j], log[i].pid) && OnlyAmbient(log, i + 1, j) && OnlyAmbient(log, j + 1, n + 1);
  }

  lemma StepMakesHistory(l: seq<Event>, e: Event)
    requires History(l) && !Ambient(e)
    ensures History(l + [e])
  {
    var log, n := l + [e], |l|;
    assert Front(log) == l && Last(log) == e && OnlyAmbient(log, n + 1, n + 1) && log[n] == e;
    match PhaseOf(log)
    case Booting(pid) => assert Since(log, n, Forked(pid, Md1));
    case Booted => assert CleanBoot(log[n]);
    case Leaving(pid) => assert Since(log, n, Killed(pid, Md2, Term));
    case Halting =>
      var pid := PhaseOf(l).pid;
      var i :| Since(l, i, Killed(pid, Md2, Term));
      assert log[i] == l[i] && CollectedMd2(log[n], log[i].pid) && OnlyAmbient(log, i + 1, n);
      assert StoppedMd2(log, i, n + 1);
    case _ =>
  }

  lemma {:induction false} HistoryHolds(log: seq<Event>)
    ensures History(log)
  {
    if log != [] {
      HistoryHolds(Front(log));
      assert Front(log) + [Last(log)] == log;
      if Ambient(Last(log)) {
        AmbientKeepsHistory(Front(log), Last(log));
      } else {
        StepMakesHistory(Front(log), Last(log));
      }
    }
  }

  lemma StepAt(log: seq<Event>, i: nat)
    requires i < |log|
    ensures PhaseOf(log[..i + 1]) == Stepped(PhaseOf(log[..i]), ChldDue(log[..i]), log[i])
    ensures Accepted(log) ==> Accepted(log[..i]) && Accepted(log[..i + 1])
    ensures Accepted(log) ==> PhaseOf(log[..i + 1]) == Next(PhaseOf(log[..i]), log[i])
  {
    assert Front(log[..i + 1]) == log[..i] && Last(log[..i + 1]) == log[i];
    AcceptedPrefix(log, i);
    AcceptedPrefix(log, i + 1);
  }

  /** MD2 is spawned, or its spawn fails, only right after an MD1 run that exited with 0. */
  lemma Md2OnlyAfterCleanBoot(log: seq<Event>, i: nat)
    requires Accepted(log) && i < |log| && AttemptOf(log[i], Md2)
    ensures exists j :: 0 <= j < i && CleanBoot(log[j]) && OnlyAmbient(log, j + 1, i)
  {
    StepAt(log, i);
    HistoryHolds(log[..i]);
    var j :| 0 <= j < i && CleanBoot(log[..i][j]) && OnlyAmbient(log[..i], j + 1, i);
    assert forall k :: j < k < i ==> log[k] == log[..i][k];
    assert CleanBoot(log[j]) && OnlyAmbient(log, j + 1, i);
  }

  /** The MD0 program is started only after MD2 was sent SIGTERM and then collected. */
  lemma Md0OnlyAfterMd2Left(log: seq<Event>, i: nat)
    requires Accepted(log) && i < |log| && AttemptOf(log[i], Md0)
    ensures exists j :: StoppedMd2(log, j, i)
  {
    StepAt(log, i);
    var l := log[..i];
    HistoryHolds(l);
    var j :| StoppedMd2(l, j, i);
    var k :| j < k < i && CollectedMd2(l[k], l[j].pid) && OnlyAmbient(l, j + 1, k) && OnlyAmbient(l, k + 1, i);
    assert forall x :: 0 <= x < i ==> log[x] == l[x];
    assert CollectedMd2(log[k], log[j].pid) && OnlyAmbient(log, j + 1, k) && OnlyAmbient(log, k + 1, i);
    assert StoppedMd2(log, j, i);
  }

  predicate Final(p: Phase) {
    p.PoweringOff? || Awake(p).Off?
  }

  lemma {:induction false} FinalStays(log: seq<Event>, i: nat)
    requires Accepted(log) && i <= |log| && Final(PhaseOf(log[..i]))
    ensures Final(PhaseOf(log))
    decreases |log|
  {
    if i < |log| {
      assert Front(log)[..i] == log[..i];
      FrontStep(log);
      FinalStays(Front(log), i);
    } else {
      assert log[..i] == log;
    }
  }

  /** MD0 is started at most once, and no mode program is started after it. */
  lemma Md0IsAbsorbing(log: seq<Event>, i: nat, j: nat, program: Program)
    requires Accepted(log) && i < j < |log| && AttemptOf(log[i], Md0)
    requires program.Md0? || program.Md1? || program.Md2?
    ensures !AttemptOf(log[j], program)
  {
    Md0Begins(log, i);
    StepAt(log, j);
    assert log[..j][..i + 1] == log[..i + 1];
    FinalStays(log[..j], i + 1);
    NothingAfterFinal(PhaseOf(log[..j]), log[j], program);
  }

  lemma Md0Begins(log: seq<Event>, i: nat)
    requires Accepted(log) && i < |log| && AttemptOf(log[i], Md0)
    ensures Final(PhaseOf(log[..i + 1]))
  {
    StepAt(log, i);
  }

  lemma NothingAfterFinal(p: Phase, e: Event, program: Program)
    requires Final(p) && !Next(p, e).Broken? && program in {Md0, Md1, Md2}
    ensures !AttemptOf(e, program)
  {
  }

  /** No mode is active, also while PID 1 sleeps. */
  predicate IsDown(p: Phase) {
    Awake(p).Down?
  }

  /** No mode is re-entered only by a failed MD1 run, a failed MD2 spawn, or MD2's death. */
  lemma HowModesAreLost(log: seq<Event>, i: nat)
    requires Accepted(log) && i < |log| && !PhaseOf(log[..i]).Starting?
    requires !IsDown(PhaseOf(log[..i])) && IsDown(PhaseOf(log[..i + 1]))
    ensures || (log[i].Waited? && log[i].proc.program == Md1 && !CleanBoot(log[i]))
            || log[i] == ForkFailed(Md2)
            || (log[i].Reaped? && log[i].proc.program == Md2 && PhaseOf(log[..i]) == Operating(log[i].pid))
  {
    StepAt(log, i);
  }

  /** Wake-ups in which nothing is reaped change neither the mode nor the table. */
  lemma {:induction false} SpuriousWakeIsNeutral(l0: seq<Event>, l1: seq<Event>)
    requires l0 <= l1 && AtRest(PhaseOf(l0)) && Accepted(l1)
    requires forall i :: |l0| <= i < |l1| ==> Ambient(l1[i]) || l1[i].Masked? || l1[i].Delivered? || l1[i].Polled?
    ensures Awake(PhaseOf(l1)) == PhaseOf(l0) && TableOf(l1) == TableOf(l0)
    decreases |l1|
  {
    if |l0| < |l1| {
      assert Last(l1) == l1[|l1| - 1];
      FrontStep(l1);
      SpuriousWakeIsNeutral(l0, Front(l1));
    } else {
      assert l0 == l1;
    }
  }

  // ---- The signal mask ----

  predicate ShieldOf(p: Phase, blocked: set<Signal>) {
    blocked == if p.Starting? || p.Asleep? then {} else SHIELD
  }

  lemma ShieldStep(p: Phase, e: Event, w: World)
    requires ShieldOf(p, w.blocked) && !Next(p, e).Broken?
    ensures ShieldOf(Next(p, e), Apply(w, e).blocked)
  {
  }

  /** The three signals are blocked whenever PID 1 is not asleep. */
  lemma {:induction false} ShieldHolds(log: seq<Event>)
    requires Accepted(log)
    ensures ShieldOf(PhaseOf(log), Replay(log).blocked)
  {
    if log != [] {
      FrontStep(log);
      ShieldHolds(Front(log));
      ShieldStep(PhaseOf(Front(log)), Last(log), Replay(Front(log)));
    }
  }

  /** Every child that PID 1 forks, be it MD1, MD2, MD0 or an HSV, inherits the blocked signals. */
  lemma ChildrenInheritTheShield(log: seq<Event>, i: nat)
    requires Accepted(log) && i < |log| && log[i].Forked?
    ensures Replay(log[..i]).blocked == SHIELD
  {
    StepAt(log, i);
    ShieldHolds(log[..i]);
  }

  /** A process whose mask never lacks SIGTERM, from its start on. */
  ghost predicate Shielded(log: seq<Event>) {
    log != [] && log[0] == Masked(SHIELD) && forall k :: 0 < k < |log| && log[k].Masked? ==> Term in log[k].blocked
  }

  lemma ShieldedFromTheStart(log: seq<Event>, n: nat)
    requires Legal(log) && Shielded(log) && 0 < n <= |log|
    ensures Legal(log[..n]) && Term in Replay(log[..n]).blocked
    decreases n
  {
    AcceptedPrefix(log, n);
    assert Front(log[..n]) == log[..n - 1] && Last(log[..n]) == log[n - 1];
    if n > 1 {
      ShieldedFromTheStart(log, n - 1);
    }
  }

  /** A child that inherits the blocked signals and unblocks none is never told of a SIGTERM: it
      stays pending from the moment in which it is sent. */
  lemma ShieldedChildIsDeaf(log: seq<Event>, i: nat)
    requires Legal(log) && Shielded(log) && i < |log|
    ensures !(log[i].Delivered? && Term in log[i].sigs)
    ensures log[i] == Raised(Term) ==> Term in Replay(log).pending
  {
    if i > 0 {
      ShieldedFromTheStart(log, i);
      LegalAt(log, i);
      ShieldedFromTheStart(log, i + 1);
      BlockedStaysPending(log, i + 1, Term);
      assert Front(log[..i + 1]) == log[..i] && Last(log[..i + 1]) == log[i];
    }
  }

  /** When PID 1 goes to sleep, every uncollected zombie has a SIGCHLD pending that ends the sleep. */
  lemma SleepsOnlyWhenReaped(log: seq<Event>, i: nat)
    requires Legal(log) && Accepted(log) && i < |log| && log[i] == Masked({})
    ensures HasZombie(Replay(log[..i])) ==> Chld in Replay(log[..i]).pending
  {
    StepAt(log, i);
    AcceptedPrefix(log, i);
    NoLostChild(log[..i]);
  }

  /** All that the set-up of the signals does: early signals are taken, then the three are blocked. */
  ghost predicate SetsUp(log: seq<Event>, sigs: set<Signal>) {
    exists l :: Does(l, log, Masked(SHIELD)) && if sigs == {} then Drifts([], l) else Does([], l, Delivered(sigs))
  }

  lemma Beginning(l0: seq<Event>, l1: seq<Event>, sigs: set<Signal>)
    requires if sigs == {} then Drifts([], l0) else Does([], l0, Delivered(sigs))
    requires Does(l0, l1, Masked(SHIELD))
    ensures PhaseOf(l1) == Down && TableOf(l1) == [] && ChldDue(l1) == (Chld in sigs) && SetsUp(l1, sigs)
  {
    NotYetBegun(l0, sigs);
    DoesMoves(l0, l1, Masked(SHIELD));
  }

  lemma NotYetBegun(l0: seq<Event>, sigs: set<Signal>)
    requires if sigs == {} then Drifts([], l0) else Does([], l0, Delivered(sigs))
    ensures PhaseOf(l0) == Starting && TableOf(l0) == [] && ChldDue(l0) == (Chld in sigs)
  {
    if sigs == {} { DriftIsNeutral([], l0); } else { DoesMoves([], l0, Delivered(sigs)); }
  }

  lemma SleepingIs(l0: seq<Event>, l1: seq<Event>, l2: seq<Event>, l3: seq<Event>, sigs: set<Signal>)
    requires Does(l0, l1, Masked({})) && Does(l2, l3, Masked(SHIELD))
    requires if sigs == {} then Drifts(l1, l2) else Does(l1, l2, Delivered(sigs))
    ensures l0 < l3 && Sleeps(l0, l3, sigs)
    ensures AtRest(PhaseOf(l0)) && !ChldDue(l0) ==>
              PhaseOf(l3) == PhaseOf(l0) && TableOf(l3) == TableOf(l0) && ChldDue(l3) == (Chld in sigs)
  {
    if AtRest(PhaseOf(l0)) && !ChldDue(l0) {
      DoesMoves(l0, l1, Masked({}));
      WokenBy(l1, l2, sigs);
      DoesMoves(l2, l3, Masked(SHIELD));
    }
  }

  lemma WokenBy(l1: seq<Event>, l2: seq<Event>, sigs: set<Signal>)
    requires PhaseOf(l1).Asleep? && !ChldDue(l1)
    requires if sigs == {} then Drifts(l1, l2) else Does(l1, l2, Delivered(sigs))
    ensures PhaseOf(l2) == PhaseOf(l1) && TableOf(l2) == TableOf(l1) && ChldDue(l2) == (Chld in sigs)
  {
    if sigs == {} { DriftIsNeutral(l1, l2); } else { DoesMoves(l1, l2, Delivered(sigs)); }
  }

  /** PID 1 slept once, and these signals woke it. */
  ghost predicate Sleeps(l0: seq<Event>, l1: seq<Event>, sigs: set<Signal>) {
    exists l, m :: Does(l0, l, Masked({})) && Does(m, l1, Masked(SHIELD))
                   && if sigs == {} then Drifts(l, m) else Does(l, m, Delivered(sigs))
  }

  /** Without a new start of MD1, no mode stays no mode: neither MD2 nor MD0 is started. */
  lemma {:induction false} DownStays(log: seq<Event>, i: nat)
    requires Accepted(log) && i <= |log| && IsDown(PhaseOf(log[..i]))
    requires forall k :: i <= k < |log| ==> !AttemptOf(log[k], Md1)
    ensures IsDown(PhaseOf(log))
    ensures forall k :: i <= k < |log| ==> !AttemptOf(log[k], Md2) && !AttemptOf(log[k], Md0)
    decreases |log|
  {
    if i < |log| {
      assert Front(log)[..i] == log[..i];
      FrontStep(log);
      DownStays(Front(log), i);
    } else {
      assert log[..i] == log;
    }
  }

  /** MD1 could not be started, and then SIGTERM arrived. */
  function SigtermWithoutMode(): seq<Event> {
    [Masked(SHIELD), ForkFailed(Md1), Masked({}), Raised(Term), Delivered({Term}), Masked(SHIELD)]
  }

  ghost predicate Reached(log: seq<Event>, k: nat, w: World, p: Phase)
    requires k <= |log|
  {
    Legal(log[..k]) && Replay(log[..k]) == w && PhaseOf(log[..k]) == p && !ChldDue(log[..k])
  }

  lemma Extend(log: seq<Event>, k: nat, w: World, p: Phase)
    requires k < |log| && Reached(log, k, w, p) && Enabled(w, log[k]) && !DebtAfter(false, log[k])
    ensures Reached(log, k + 1, Apply(w, log[k]), Next(p, log[k]))
  {
    assert Front(log[..k + 1]) == log[..k] && Last(log[..k + 1]) == log[k];
  }

  ghost predicate IsIgnored(log: seq<Event>) {
    && |log| == 6 && log[0] == Masked(SHIELD) && log[1] == ForkFailed(Md1) && log[2] == Masked({})
    && log[3] == Raised(Term) && log[4] == Delivered({Term}) && log[5] == Masked(SHIELD)
  }

  lemma IgnoredIs()
    ensures IsIgnored(SigtermWithoutMode())
  {
  }

  lemma SigtermIsAwaited(log: seq<Event>)
    requires IsIgnored(log)
    ensures Reached(log, 3, World(map[], 0, {}, {}), Asleep(Down))
  {
    assert log[..0] == [];
    Extend(log, 0, World(map[], 0, {}, {}), Starting);
    Extend(log, 1, World(map[], 0, {}, SHIELD), Down);
    Extend(log, 2, World(map[], 0, {}, SHIELD), Down);
  }

  lemma SigtermIsDelivered(log: seq<Event>)
    requires IsIgnored(log)
    ensures Reached(log, 6, World(map[], 0, {}, SHIELD), Down)
  {
    SigtermIsAwaited(log);
    Extend(log, 3, World(map[], 0, {}, {}), Asleep(Down));
    Extend(log, 4, World(map[], 0, {Term}, {}), Asleep(Down));
    Extend(log, 5, World(map[], 0, {}, {}), Asleep(Down));
  }

  lemma IgnoredForGood(head: seq<Event>, log: seq<Event>)
    requires Accepted(log) && IsIgnored(head) && head <= log
    requires forall k :: 6 <= k < |log| ==> !AttemptOf(log[k], Md1)
    ensures Legal(head) && IsDown(PhaseOf(log)) && forall k :: 0 <= k < |log| ==> !AttemptOf(log[k], Md0)
  {
    assert head[..6] == head && log[..6] == head;
    SigtermIsDelivered(head);
    DownStays(log, 6);
    assert forall k :: 0 <= k < 6 ==> log[k] == head[k];
  }

  /** SIGTERM alone does not shut the machine down: here it is delivered while no mode is active,
      and however such a run goes on, MD0 is not started unless MD1 is first started again. */
  lemma SigtermCanBeIgnored(log: seq<Event>)
    requires Accepted(log) && SigtermWithoutMode() <= log
    requires forall k :: 6 <= k < |log| ==> !AttemptOf(log[k], Md1)
    ensures Legal(SigtermWithoutMode()) && SigtermWithoutMode()[4] == Delivered({Term})
    ensures IsDown(PhaseOf(log)) && forall k :: 0 <= k < |log| ==> !AttemptOf(log[k], Md0)
  {
    IgnoredIs();
    IgnoredForGood(SigtermWithoutMode(), log);
  }
}
