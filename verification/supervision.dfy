/** A reference for what one service supervisor may do, stated on its log alone. */
module Supervision {
  import opened Kernel

  const SECOND: nat := 1_000_000_000
  const STOP_POLLS: nat := 50

  /** The time between two polls of a run. */
  const PERIOD: nat := 100_000_000

  datatype Hook = StopHook | FinishHook

  function ScriptOf(hook: Hook): Program {
    if hook.StopHook? then StopScript else FinishScript
  }

  /** What the next run waits for: nothing before the first one, nothing when a restart request
      waited at the end of the last one, and otherwise a full second, of which some is slept. There is
      none when SIGTERM had arrived by then. */
  datatype Pause = NotDue | Skipped | Due(slept: nat) | Leaving

  datatype Stage =
    | Fresh                                                   // the program was just executed
    | Idle(pause: Pause)                                      // no child; a run comes next
    | Serving(pid: int, slept: nat)                           // the run script runs; slept since the last poll
    | Alive(pid: int, restart: bool, term: bool)              // it still runs; the flags by then
    | Taking(pid: int)                                        // a restart request was taken
    | Stopping(pid: int, polls: nat, restart: bool)           // SIGTERM was sent
    | Killing(pid: int, restart: bool)                        // SIGKILL was sent
    | HookDue                                                 // stopped for a restart
    | Closing                                                 // stopped for the shutdown
    | Found(hook: Hook, final: bool)                          // the hook exists and will be forked
    | InHook(pid: int, hook: Hook, final: bool)               // the hook runs
    | FinishDue                                               // the last stop attempt is over
    | Done                                                    // the finish attempt is over
    | Broken

  /** The signals that are blocked, and the flags and counters that a log determines: whether SIGTERM
      was ever delivered, whether a delivered SIGUSR1 waits to be taken, how many runs were
      attempted, and how many of them after SIGTERM, the nanoseconds slept, and how often SIGKILL
      was sent. */
  datatype State = State(stage: Stage, blocked: set<Signal>, term: bool, restart: bool,
                         runs: nat, late: nat, clock: nat, kills: nat)

  predicate Collected(e: Event, pid: int, program: Program) {
    e.Waited? && e.pid == pid && e.proc.program == program
  }

  /** Events that leave the stage alone. */
  predicate Passive(e: Event) {
    Ambient(e) || e.Delivered?
  }

  function PauseAfter(restart: bool, term: bool): Pause {
    if term then Leaving else if restart then Skipped else Due(0)
  }

  /** May the next run start? */
  predicate Ready(pause: Pause, restart: bool) {
    match pause
    case Leaving => false
    case Due(slept) => slept == SECOND || restart
    case _ => true
  }

  /** May the run be polled? At once after its start, and then after a full period or a signal. */
  predicate PollDue(s: State) {
    s.stage.Serving? && (s.stage.slept == PERIOD || s.restart || s.term)
  }

  function AfterHook(hook: Hook, final: bool, s: State): Stage {
    if hook.FinishHook? then Done else if final then FinishDue else Idle(PauseAfter(s.restart, s.term))
  }

  function Checked(hook: Hook, final: bool, found: bool, s: State): Stage {
    if found then Found(hook, final) else AfterHook(hook, final, s)
  }

  function NextStage(s: State, e: Event): Stage {
    if Ambient(e) then s.stage
    else if s.stage.Fresh? then (if e.Masked? then Idle(NotDue) else Broken)
    else if e.Delivered? then s.stage
    else match s.stage
      case Idle(pause) =>
        if AttemptOf(e, RunScript) then
          (if !Ready(pause, s.restart) || (s.term && s.late > 0) then Broken
           else if e.Forked? then Serving(e.pid, PERIOD) else Idle(Due(0)))
        else if e.Accessed? && e.program.StopScript? && s.term then Checked(StopHook, true, e.found, s)
        else if e.Slept? && pause.Due? && pause.slept + e.nanoseconds <= SECOND then
          Idle(Due(pause.slept + e.nanoseconds))
        else Broken
      case Serving(pid, slept) =>
        if e.Slept? && slept + e.nanoseconds <= PERIOD then Serving(pid, slept + e.nanoseconds)
        else if !PollDue(s) then Broken
        else if Collected(e, pid, RunScript) then Idle(PauseAfter(s.restart, s.term))
        else if e == Unready(pid, true) then s.stage
        else if e == Unready(pid, false) then Alive(pid, s.restart, s.term)
        else Broken
      case Alive(pid, restart, term) =>
        if e.RestartTaken? && s.restart then Taking(pid)
        else if e == Killed(pid, RunScript, Term) && s.term && !restart then Stopping(pid, 0, false)
        else if e.Slept? && !restart && !term && e.nanoseconds <= PERIOD then Serving(pid, e.nanoseconds)
        else Broken
      case Taking(pid) =>
        if e == Killed(pid, RunScript, Term) then Stopping(pid, 0, true) else Broken
      case Stopping(pid, polls, restart) =>
        if e.Slept? then s.stage
        else if polls == STOP_POLLS then (if e == Killed(pid, RunScript, Kill) then Killing(pid, restart) else Broken)
        else if Collected(e, pid, RunScript) then (if restart then HookDue else Closing)
        else if e.Unready? && e.pid == pid then Stopping(pid, polls + 1, restart)
        else Broken
      case Killing(pid, restart) =>
        if Collected(e, pid, RunScript) then (if restart then HookDue else Closing) else Broken
      case HookDue =>
        if e.Accessed? && e.program.StopScript? then Checked(StopHook, false, e.found, s) else Broken
      case Closing =>
        if e.Accessed? && e.program.StopScript? then Checked(StopHook, true, e.found, s) else Broken
      case Found(hook, final) =>
        if AttemptOf(e, ScriptOf(hook)) then
          (if e.Forked? then InHook(e.pid, hook, final) else AfterHook(hook, final, s))
        else Broken
      case InHook(pid, hook, final) =>
        if Collected(e, pid, ScriptOf(hook)) then AfterHook(hook, final, s) else Broken
      case FinishDue =>
        if e.Accessed? && e.program.FinishScript? then Checked(FinishHook, true, e.found, s) else Broken
      case Done => Broken
      case Broken => Broken
  }

  function Next(s: State, e: Event): State {
    var s' := s.(stage := NextStage(s, e));
    match e
    case Delivered(sigs) => s'.(term := s.term || Term in sigs, restart := s.restart || Usr1 in sigs)
    case Masked(blocked) => s'.(blocked := blocked)
    case RestartTaken => s'.(restart := false)
    case Killed(_, _, sig) => if sig == Kill then s'.(kills := s.kills + 1) else s'
    case Slept(nanoseconds) => s'.(clock := s.clock + nanoseconds)
    case Forked(_, program) => if program.RunScript? then Counted(s') else s'
    case ForkFailed(program) => if program.RunScript? then Counted(s') else s'
    case _ => s'
  }

  function Counted(s: State): State {
    s.(runs := s.runs + 1, late := if s.term then s.late + 1 else s.late)
  }

  const START := State(Fresh, {}, false, false, 0, 0, 0, 0)

  function StateOf(log: seq<Event>): State {
    if log == [] then START else Next(StateOf(Front(log)), Last(log))
  }

  ghost predicate Accepted(log: seq<Event>) {
    !StateOf(log).stage.Broken?
  }

  lemma {:induction false} DriftIsNeutral(l0: seq<Event>, l1: seq<Event>)
    requires Drifts(l0, l1)
    ensures StateOf(l1) == StateOf(l0)
    decreases |l1|
  {
    if |l0| < |l1| {
      assert Ambient(Last(l1));
      DriftIsNeutral(l0, Front(l1));
    } else {
      assert l0 == l1;
    }
  }

  lemma DoesMoves(l0: seq<Event>, l1: seq<Event>, e: Event)
    requires Does(l0, l1, e)
    ensures StateOf(l1) == Next(StateOf(l0), e)
  {
    DriftIsNeutral(l0, Front(l1));
  }

  /** The last step. */
  lemma FrontStep(log: seq<Event>)
    requires Accepted(log) && log != []
    ensures Accepted(Front(log)) && StateOf(log) == Next(StateOf(Front(log)), Last(log))
    ensures StateOf(log).stage == NextStage(StateOf(Front(log)), Last(log))
  {
    var s, e := StateOf(Front(log)), Last(log);
    assert StateOf(log) == Next(s, e);
    StageOfNext(s, e);
    BrokenStays(s, e);
  }

  lemma StageOfNext(s: State, e: Event)
    ensures Next(s, e).stage == NextStage(s, e)
  {
  }

  lemma BrokenStays(s: State, e: Event)
    ensures s.stage.Broken? ==> NextStage(s, e).Broken?
  {
  }

  lemma {:induction false} AcceptedPrefix(log: seq<Event>, n: nat)
    requires n <= |log|
    ensures Accepted(log) ==> Accepted(log[..n])
    decreases |log|
  {
    if n < |log| {
      if Accepted(log) { FrontStep(log); }
      AcceptedPrefix(Front(log), n);
      assert Front(log)[..n] == log[..n];
    } else {
      assert log[..n] == log;
    }
  }

  /** The step at index i, between two accepted prefixes. */
  lemma StepAt(log: seq<Event>, i: nat)
    requires Accepted(log) && i < |log|
    ensures StateOf(log[..i + 1]) == Next(StateOf(log[..i]), log[i])
    ensures Accepted(log[..i]) && Accepted(log[..i + 1])
  {
    assert Front(log[..i + 1]) == log[..i] && Last(log[..i + 1]) == log[i];
    AcceptedPrefix(log, i);
    AcceptedPrefix(log, i + 1);
  }

  lemma StageAt(log: seq<Event>, i: nat)
    requires Accepted(log) && i < |log|
    ensures StateOf(log[..i + 1]).stage == NextStage(StateOf(log[..i]), log[i])
    ensures !StateOf(log[..i]).stage.Broken? && !StateOf(log[..i + 1]).stage.Broken?
  {
    StepAt(log, i);
  }

  /** The step that leads to the first n events. */
  lemma StageTo(log: seq<Event>, n: nat)
    requires Accepted(log) && 0 < n <= |log|
    ensures StateOf(log[..n]).stage == NextStage(StateOf(log[..n - 1]), log[n - 1])
    ensures !StateOf(log[..n - 1]).stage.Broken? && !StateOf(log[..n]).stage.Broken?
  {
    StageAt(log, n - 1);
  }

  // ---- Mutual exclusion ----

  datatype Slot = Empty | Held(pid: int, program: Program)

  /** The child a stage has. */
  function SlotOf(s: Stage): Slot {
    match s
    case Serving(pid, _) => Held(pid, RunScript)
    case Alive(pid, _, _) => Held(pid, RunScript)
    case Taking(pid) => Held(pid, RunScript)
    case Stopping(pid, _, _) => Held(pid, RunScript)
    case Killing(pid, _) => Held(pid, RunScript)
    case InHook(pid, hook, _) => Held(pid, ScriptOf(hook))
    case _ => Empty
  }

  predicate Fills(s: Slot, pid: int, program: Program) {
    s == Held(pid, program)
  }

  ghost predicate Exclusive(s: Stage, w: World) {
    && (forall pid :: pid in w.children ==>
          w.children[pid].program == Orphan || Fills(SlotOf(s), pid, w.children[pid].program))
    && (SlotOf(s).Held? ==> SlotOf(s).pid in w.children && w.children[SlotOf(s).pid].program == SlotOf(s).program)
  }

  lemma ForkKeepsExclusive(s: State, w: World, e: Event)
    requires Exclusive(s.stage, w) && Enabled(w, e) && e.Forked? && !NextStage(s, e).Broken?
    ensures Exclusive(NextStage(s, e), Apply(w, e))
  {
    assert SlotOf(s.stage).Empty? && SlotOf(NextStage(s, e)) == Held(e.pid, e.program);
  }

  lemma WaitKeepsExclusive(s: State, w: World, e: Event)
    requires Exclusive(s.stage, w) && Enabled(w, e) && e.Waited? && !NextStage(s, e).Broken?
    ensures Exclusive(NextStage(s, e), Apply(w, e))
  {
    assert SlotOf(s.stage) == Held(e.pid, e.proc.program) && SlotOf(NextStage(s, e)).Empty?;
  }

  lemma OthersKeepExclusive(s: State, w: World, e: Event)
    requires Exclusive(s.stage, w) && Enabled(w, e) && !e.Forked? && !e.Waited? && !NextStage(s, e).Broken?
    ensures Exclusive(NextStage(s, e), Apply(w, e))
  {
    assert !e.Reaped? && SlotOf(NextStage(s, e)) == SlotOf(s.stage);
  }

  /** Mutual exclusion: whenever the signals arrive, the supervisor has at most one unreaped
      child of its own, and it is the one its stage names. So no hook overlaps the service,
      and no run starts before the previous one was collected. */
  lemma {:induction false} MutualExclusion(log: seq<Event>)
    requires Legal(log) && Accepted(log)
    ensures Exclusive(StateOf(log).stage, Replay(log))
  {
    if log != [] {
      var s, w, e := StateOf(Front(log)), Replay(Front(log)), Last(log);
      FrontStep(log);
      MutualExclusion(Front(log));
      if e.Forked? {
        ForkKeepsExclusive(s, w, e);
      } else if e.Waited? {
        WaitKeepsExclusive(s, w, e);
      } else {
        OthersKeepExclusive(s, w, e);
      }
    }
  }

  /** The child that a stage holds is there. */
  lemma HeldChild(log: seq<Event>, pid: int, program: Program)
    requires Legal(log) && Accepted(log) && SlotOf(StateOf(log).stage) == Held(pid, program)
    ensures pid in Replay(log).children && Replay(log).children[pid].program == program
  {
    MutualExclusion(log);
  }

  lemma AtMostOneChild(log: seq<Event>, p: int, q: int)
    requires Legal(log) && Accepted(log)
    requires p in Replay(log).children && q in Replay(log).children
    requires Replay(log).children[p].program != Orphan && Replay(log).children[q].program != Orphan
    ensures p == q
  {
    MutualExclusion(log);
    var s, w := SlotOf(StateOf(log).stage), Replay(log);
    assert Fills(s, p, w.children[p].program) && Fills(s, q, w.children[q].program);
  }

  // ---- Episodes ----

  /** The run forked at i was collected at j, and the supervisor forked and collected nothing else
      in between. */
  ghost predicate Episode(log: seq<Event>, i: nat, j: nat) {
    && i < j < |log| && log[i].Forked? && Collected(log[j], log[i].pid, RunScript)
    && forall k :: i < k < j ==> !log[k].Forked? && !log[k].Waited?
  }

  ghost predicate Open(log: seq<Event>, i: nat) {
    && i < |log| && log[i].Forked? && SlotOf(StateOf(log).stage) == Held(log[i].pid, RunScript)
    && forall k :: i < k < |log| ==> !log[k].Forked? && !log[k].Waited?
  }

  lemma StepOfRun(s: State, e: Event, pid: int)
    requires SlotOf(s.stage) == Held(pid, RunScript) && !NextStage(s, e).Broken?
    ensures Collected(e, pid, RunScript) || (SlotOf(NextStage(s, e)) == SlotOf(s.stage) && !e.Forked? && !e.Waited?)
  {
  }

  lemma EpisodeStays(l: seq<Event>, i: nat, j: nat, e: Event)
    requires Episode(l, i, j)
    ensures Episode(l + [e], i, j)
  {
    assert forall k :: 0 <= k < |l| ==> (l + [e])[k] == l[k];
  }

  lemma OpenStep(l: seq<Event>, i: nat, e: Event)
    requires Open(l, i) && Accepted(l + [e])
    ensures Open(l + [e], i) || Episode(l + [e], i, |l|)
  {
    var log := l + [e];
    assert Front(log) == l && forall k :: 0 <= k < |l| ==> log[k] == l[k];
    FrontStep(log);
    StepOfRun(StateOf(l), e, log[i].pid);
  }

  lemma RunOpens(l: seq<Event>, e: Event)
    requires Accepted(l + [e]) && e.Forked? && e.program == RunScript
    ensures Open(l + [e], |l|)
  {
    assert Front(l + [e]) == l;
    FrontStep(l + [e]);
  }

  lemma {:induction false} RunsAreEpisodes(log: seq<Event>, i: nat)
    requires Accepted(log) && i < |log| && log[i].Forked? && log[i].program == RunScript
    ensures Open(log, i) || exists j: nat :: Episode(log, i, j)
    decreases |log|
  {
    var l, e := Front(log), Last(log);
    assert l + [e] == log;
    if i < |l| {
      FrontStep(log);
      RunsAreEpisodes(l, i);
      if j: nat :| Episode(l, i, j) {
        EpisodeStays(l, i, j, e);
      } else {
        OpenStep(l, i, e);
      }
    } else {
      RunOpens(l, e);
    }
  }

  /** When the supervisor is done, every run it ever forked was an episode of its own. */
  lemma EveryRunEnded(log: seq<Event>, i: nat)
    requires Accepted(log) && StateOf(log).stage == Done
    requires i < |log| && log[i].Forked? && log[i].program == RunScript
    ensures exists j: nat :: Episode(log, i, j)
  {
    RunsAreEpisodes(log, i);
  }

  // ---- Shutdown ----

  ghost predicate TermBefore(log: seq<Event>, i: nat)
    requires i <= |log|
  {
    exists k :: 0 <= k < i && log[k].Delivered? && Term in log[k].sigs
  }

  /** The shutdown flag is set exactly when SIGTERM was delivered at least once; it stays set. */
  lemma {:induction false} TermIsRemembered(log: seq<Event>)
    ensures StateOf(log).term <==> TermBefore(log, |log|)
  {
    if log != [] {
      TermIsRemembered(Front(log));
      if TermBefore(log, |log|) {
        var k :| 0 <= k < |log| && log[k].Delivered? && Term in log[k].sigs;
        assert k < |log| - 1 ==> Front(log)[k] == log[k] && TermBefore(Front(log), |log| - 1);
      }
      if TermBefore(Front(log), |log| - 1) {
        var k :| 0 <= k < |log| - 1 && Front(log)[k].Delivered? && Term in Front(log)[k].sigs;
        assert log[k] == Front(log)[k];
      }
    }
  }

  lemma TermSeen(log: seq<Event>, i: nat)
    requires i <= |log|
    ensures StateOf(log[..i]).term <==> TermBefore(log, i)
  {
    TermIsRemembered(log[..i]);
    assert forall k :: 0 <= k < i ==> log[..i][k] == log[k];
  }

  lemma {:induction false} LateMonotone(log: seq<Event>, i: nat)
    requires i <= |log|
    ensures StateOf(log[..i]).late <= StateOf(log).late
    decreases |log|
  {
    if i < |log| {
      assert Front(log)[..i] == log[..i];
      LateMonotone(Front(log), i);
    } else {
      assert log[..i] == log;
    }
  }

  lemma TermStays(log: seq<Event>, i: nat, j: nat)
    requires i <= j <= |log| && TermBefore(log, i)
    ensures StateOf(log[..j]).term
  {
    var k :| 0 <= k < i && log[k].Delivered? && Term in log[k].sigs;
    assert log[..j][k] == log[k];
    TermIsRemembered(log[..j]);
  }

  lemma LateAttempt(s: State, e: Event)
    requires AttemptOf(e, RunScript) && !NextStage(s, e).Broken? && s.term
    ensures s.late == 0 && Next(s, e).late == 1
  {
  }

  lemma LateAttemptAt(log: seq<Event>, i: nat)
    requires Accepted(log) && i < |log| && AttemptOf(log[i], RunScript) && StateOf(log[..i]).term
    ensures StateOf(log[..i]).late == 0 && StateOf(log[..i + 1]).late == 1
  {
    StepAt(log, i);
    LateAttempt(StateOf(log[..i]), log[i]);
  }

  /** Once SIGTERM was delivered at most one further run is attempted. */
  lemma OneLateRun(log: seq<Event>, i: nat, j: nat)
    requires Accepted(log) && i < j < |log| && AttemptOf(log[i], RunScript) && TermBefore(log, i)
    ensures !AttemptOf(log[j], RunScript)
  {
    TermStays(log, i, i);
    LateAttemptAt(log, i);
    assert log[..j][..i + 1] == log[..i + 1];
    LateMonotone(log[..j], i + 1);
    if AttemptOf(log[j], RunScript) {
      TermStays(log, i, j);
      LateAttemptAt(log, j);
    }
  }

  /** How far a stage is on the way out. */
  function Rank(s: Stage): nat {
    match s
    case Closing => 1
    case Found(hook, final) => if hook.FinishHook? then 4 else if final then 2 else 0
    case InHook(_, hook, final) => if hook.FinishHook? then 4 else if final then 2 else 0
    case FinishDue => 3
    case Done => 5
    case Broken => 6
    case _ => 0
  }

  lemma RankStep(s: State, e: Event)
    ensures Rank(s.stage) <= Rank(Next(s, e).stage)
  {
    assert Next(s, e).stage == NextStage(s, e);
  }

  lemma {:induction false} RankNeverFalls(log: seq<Event>, i: nat)
    requires i <= |log|
    ensures Rank(StateOf(log[..i]).stage) <= Rank(StateOf(log).stage)
    decreases |log|
  {
    if i < |log| {
      assert Front(log)[..i] == log[..i];
      RankNeverFalls(Front(log), i);
      RankStep(StateOf(Front(log)), Last(log));
    } else {
      assert log[..i] == log;
    }
  }

  function RankAt(log: seq<Event>, i: nat): nat
    requires i <= |log|
  {
    Rank(StateOf(log[..i]).stage)
  }

  lemma RankIsMonotone(log: seq<Event>, i: nat, j: nat)
    requires i <= j <= |log|
    ensures RankAt(log, i) <= RankAt(log, j)
  {
    assert log[..j][..i] == log[..i];
    RankNeverFalls(log[..j], i);
  }

  lemma {:induction false} WhereRankIsReached(log: seq<Event>, r: nat) returns (i: nat)
    requires 0 < r <= Rank(StateOf(log).stage)
    ensures i < |log| && RankAt(log, i) < r <= RankAt(log, i + 1)
    decreases |log|
  {
    var n := |log| - 1;
    assert log[..n + 1] == log && log[..n] == Front(log);
    if Rank(StateOf(Front(log)).stage) < r {
      i := n;
    } else {
      i := WhereRankIsReached(Front(log), r);
      assert Front(log)[..i] == log[..i] && Front(log)[..i + 1] == log[..i + 1];
    }
  }

  /** What the supervisor itself did. */
  function Acts(log: seq<Event>): seq<Event> {
    if log == [] then []
    else if Passive(Last(log)) then Acts(Front(log))
    else Acts(Front(log)) + [Last(log)]
  }

  /** All that is done about one hook after it was looked for: nothing if it is missing, and
      otherwise one attempt to start it, and its collection if it was started. */
  predicate HookActs(acts: seq<Event>, hook: Hook, found: bool) {
    if !found then acts == []
    else || acts == [ForkFailed(ScriptOf(hook))]
         || (|acts| == 2 && acts[0].Forked? && acts[0].program == ScriptOf(hook)
             && Collected(acts[1], acts[0].pid, ScriptOf(hook)))
  }

  /** The supervisor's last actions: a stop attempt at i and a finish attempt at j, after SIGTERM;
      each is made at most once, collected if it runs, and apart from them nothing is done after i.
      No finish attempt comes earlier. */
  ghost predicate EndsAt(log: seq<Event>, i: int, j: int) {
    && 0 <= i < j < |log|
    && log[i].Accessed? && log[i].program == StopScript && HookActs(Acts(log[i + 1..j]), StopHook, log[i].found)
    && log[j].Accessed? && log[j].program == FinishScript && HookActs(Acts(log[j + 1..]), FinishHook, log[j].found)
    && (forall k :: 0 <= k < |log| && log[k].Accessed? && log[k].program == FinishScript ==> k == j)
    && TermBefore(log, i)
  }

  /** Every terminated run of the supervisor ends with one stop attempt and one finish attempt. */
  lemma Ending(log: seq<Event>)
    requires Accepted(log) && StateOf(log).stage == Done
    ensures exists i, j :: EndsAt(log, i, j)
  {
    var i := WhereRankIsReached(log, 2);
    var j := WhereRankIsReached(log, 4);
    LeavingStep(log, i);
    FinishStep(log, j);
    if j < i { RankIsMonotone(log, j + 1, i); }
    NoOtherFinish(log, j);
    HooksOfTheEnd(log, i, j);
    TermBeforeStop(log, i);
    assert EndsAt(log, i, j);
  }

  lemma NoOtherFinish(log: seq<Event>, j: nat)
    requires Accepted(log) && j < |log| && RankAt(log, j) < 4 <= RankAt(log, j + 1)
    ensures forall k :: 0 <= k < |log| && log[k].Accessed? && log[k].program == FinishScript ==> k == j
  {
    forall k | 0 <= k < |log| && log[k].Accessed? && log[k].program == FinishScript ensures k == j {
      OneFinish(log, j, k);
    }
  }

  lemma FinishIsDue(log: seq<Event>, j: nat)
    requires Accepted(log) && j < |log| && log[j].Accessed? && log[j].program == FinishScript
    ensures StateOf(log[..j]).stage == FinishDue
  {
    StageAt(log, j);
  }

  lemma HooksOfTheEnd(log: seq<Event>, i: nat, j: nat)
    requires Accepted(log) && StateOf(log).stage == Done && i < j < |log|
    requires log[i].Accessed? && log[i].program == StopScript && RankAt(log, i + 1) >= 2
    requires log[j].Accessed? && log[j].program == FinishScript && RankAt(log, j) < 4 <= RankAt(log, j + 1)
    ensures HookActs(Acts(log[i + 1..j]), StopHook, log[i].found)
    ensures HookActs(Acts(log[j + 1..]), FinishHook, log[j].found)
  {
    LastHook(log, i, StopHook);
    ClosingActs(log, i, j, StopHook);
    FinishIsDue(log, j);
    LastHook(log, j, FinishHook);
    ClosingActs(log, j, |log|, FinishHook);
    assert log[..|log|] == log && log[j + 1..|log|] == log[j + 1..];
  }

  lemma StepOut(s: State, e: Event)
    requires !NextStage(s, e).Broken?
    ensures Rank(s.stage) < 2 <= Rank(NextStage(s, e)) ==>
              e.Accessed? && e.program == StopScript && Rank(NextStage(s, e)) <= 3
    ensures Rank(s.stage) < 4 <= Rank(NextStage(s, e)) ==> e.Accessed? && e.program == FinishScript
  {
  }

  lemma LeavingStep(log: seq<Event>, i: nat)
    requires Accepted(log) && i < |log| && RankAt(log, i) < 2 <= RankAt(log, i + 1)
    ensures log[i].Accessed? && log[i].program == StopScript && RankAt(log, i + 1) <= 3
  {
    StageAt(log, i);
    StepOut(StateOf(log[..i]), log[i]);
  }

  lemma FinishStep(log: seq<Event>, j: nat)
    requires Accepted(log) && j < |log| && RankAt(log, j) < 4 <= RankAt(log, j + 1)
    ensures log[j].Accessed? && log[j].program == FinishScript
  {
    StageAt(log, j);
    StepOut(StateOf(log[..j]), log[j]);
  }

  lemma AttemptOfFinish(log: seq<Event>, k: nat)
    requires Accepted(log) && k < |log| && log[k].Accessed? && log[k].program == FinishScript
    ensures RankAt(log, k) < 4 <= RankAt(log, k + 1)
  {
    StageAt(log, k);
  }

  lemma OneFinish(log: seq<Event>, j: nat, k: nat)
    requires Accepted(log) && j < |log| && RankAt(log, j) < 4 <= RankAt(log, j + 1)
    requires k < |log| && log[k].Accessed? && log[k].program == FinishScript
    ensures k == j
  {
    AttemptOfFinish(log, k);
    if k < j { RankIsMonotone(log, k + 1, j); }
    if j < k { RankIsMonotone(log, j + 1, k); }
  }

  /** What a stage of the way out tells of its hook. */
  predicate Tells(s: Stage, hook: Hook, found: bool, acts: seq<Event>) {
    match s
    case Found(h, final) => h == hook && final && found && acts == []
    case InHook(pid, h, final) => h == hook && final && found && acts == [Forked(pid, ScriptOf(hook))]
    case FinishDue => hook.StopHook? && HookActs(acts, hook, found)
    case Done => hook.FinishHook? && HookActs(acts, hook, found)
    case _ => false
  }

  lemma TellsStep(s: State, e: Event, hook: Hook, found: bool, acts: seq<Event>)
    requires Tells(s.stage, hook, found, acts) && !NextStage(s, e).Broken?
    requires hook.StopHook? ==> Rank(NextStage(s, e)) < 4
    ensures Tells(NextStage(s, e), hook, found, if Passive(e) then acts else acts + [e])
  {
  }

  lemma ActsGrow(log: seq<Event>, i: nat, n: nat)
    requires i < n <= |log|
    ensures var acts := Acts(log[i..n - 1]);
            Acts(log[i..n]) == if Passive(log[n - 1]) then acts else acts + [log[n - 1]]
  {
    assert Front(log[i..n]) == log[i..n - 1] && Last(log[i..n]) == log[n - 1];
  }

  ghost predicate TellsAt(log: seq<Event>, i: nat, n: nat, hook: Hook)
    requires i < n <= |log| && log[i].Accessed?
  {
    Tells(StateOf(log[..n]).stage, hook, log[i].found, Acts(log[i + 1..n]))
  }

  lemma TellsNext(log: seq<Event>, i: nat, n: nat, hook: Hook)
    requires Accepted(log) && i + 1 < n <= |log| && log[i].Accessed? && TellsAt(log, i, n - 1, hook)
    requires hook.StopHook? ==> RankAt(log, n) < 4
    ensures TellsAt(log, i, n, hook)
  {
    StageTo(log, n);
    ActsGrow(log, i + 1, n);
    TellsStep(StateOf(log[..n - 1]), log[n - 1], hook, log[i].found, Acts(log[i + 1..n - 1]));
  }

  /** From the check for a last hook at i on, up to n, only that hook is dealt with. */
  lemma {:induction false} ClosingActs(log: seq<Event>, i: nat, n: nat, hook: Hook)
    requires Accepted(log) && i < n <= |log| && log[i].Accessed? && TellsAt(log, i, i + 1, hook)
    requires hook.StopHook? ==> RankAt(log, n) < 4
    ensures TellsAt(log, i, n, hook)
    decreases n
  {
    if i + 1 < n {
      RankIsMonotone(log, n - 1, n);
      ClosingActs(log, i, n - 1, hook);
      TellsNext(log, i, n, hook);
    }
  }

  lemma LastHook(log: seq<Event>, i: nat, hook: Hook)
    requires Accepted(log) && i < |log| && log[i].Accessed? && log[i].program == ScriptOf(hook)
    requires if hook.StopHook? then RankAt(log, i + 1) >= 2 else RankAt(log, i + 1) >= 4
    ensures TellsAt(log, i, i + 1, hook)
  {
    StageAt(log, i);
    assert log[i + 1..i + 1] == [];
  }

  lemma TermBeforeStop(log: seq<Event>, i: nat)
    requires Accepted(log) && i < |log| && RankAt(log, i + 1) >= 2 && log[i].Accessed?
    ensures TermBefore(log, i)
  {
    StepAt(log, i);
    var l := log[..i + 1];
    TermAtTheEnd(l);
    TermIsRemembered(l);
    var k :| 0 <= k < i + 1 && l[k].Delivered? && Term in l[k].sigs;
    assert log[k] == l[k] && k != i;
  }

  predicate LeavingFor(s: Stage) {
    Rank(s) >= 1 || (s.Stopping? && !s.restart) || (s.Killing? && !s.restart)
  }

  /** The way out is taken only after SIGTERM. */
  lemma {:induction false} TermAtTheEnd(log: seq<Event>)
    requires Accepted(log)
    ensures LeavingFor(StateOf(log).stage) ==> StateOf(log).term
  {
    if log != [] {
      FrontStep(log);
      TermAtTheEnd(Front(log));
      TermStep(StateOf(Front(log)), Last(log));
    }
  }

  lemma TermStep(s: State, e: Event)
    requires LeavingFor(s.stage) ==> s.term
    requires !NextStage(s, e).Broken? && !s.stage.Broken?
    ensures LeavingFor(Next(s, e).stage) ==> Next(s, e).term
  {
  }

  // ---- Escalation ----

  predicate Patient(e: Event, pid: int) {
    Passive(e) || e.Slept? || (e.Unready? && e.pid == pid)
  }

  function Unreadies(log: seq<Event>): nat {
    if log == [] then 0 else Unreadies(Front(log)) + if Last(log).Unready? then 1 else 0
  }

  /** SIGTERM was sent to pid at i, and after it nothing happened but waiting. */
  ghost predicate PatientSince(log: seq<Event>, i: nat, pid: int) {
    i < |log| && log[i] == Killed(pid, RunScript, Term) && forall k :: i < k < |log| ==> Patient(log[k], pid)
  }

  lemma PatienceGoesOn(l: seq<Event>, i: nat, pid: int, e: Event)
    requires PatientSince(l, i, pid) && Patient(e, pid)
    ensures PatientSince(l + [e], i, pid)
    ensures Unreadies((l + [e])[i + 1..]) == Unreadies(l[i + 1..]) + if e.Unready? then 1 else 0
  {
    var tail := (l + [e])[i + 1..];
    assert Front(tail) == l[i + 1..] && Last(tail) == e;
  }

  lemma StepOfStopping(s: State, e: Event)
    requires NextStage(s, e).Stopping?
    ensures var s' := NextStage(s, e);
            if e.Killed? then e == Killed(s'.pid, RunScript, Term) && s'.polls == 0
            else s.stage.Stopping? && s.stage.pid == s'.pid && Patient(e, s'.pid)
                 && s'.polls == s.stage.polls + (if e.Unready? then 1 else 0)
  {
  }

  lemma {:induction false} StoppingBeganWithTerm(log: seq<Event>) returns (i: nat)
    requires StateOf(log).stage.Stopping?
    ensures PatientSince(log, i, StateOf(log).stage.pid)
    ensures Unreadies(log[i + 1..]) == StateOf(log).stage.polls
  {
    var l, e := Front(log), Last(log);
    assert l + [e] == log && StateOf(log).stage == NextStage(StateOf(l), e);
    StepOfStopping(StateOf(l), e);
    if e.Killed? {
      i := |l|;
      PatienceBegins(l, e);
    } else {
      i := StoppingBeganWithTerm(l);
      PatienceGoesOn(l, i, StateOf(l).stage.pid, e);
    }
  }

  lemma PatienceBegins(l: seq<Event>, e: Event)
    requires e.Killed? && e.program == RunScript && e.sig == Term
    ensures PatientSince(l + [e], |l|, e.pid) && Unreadies((l + [e])[|l| + 1..]) == 0
  {
    assert (l + [e])[|l| + 1..] == [];
  }

  /** SIGKILL is sent only to a run that was sent SIGTERM and has since then been polled 50 times
      without success; in between nothing else was done, so it is sent once. */
  lemma KillOnlyAfterFiftyPolls(log: seq<Event>, j: nat)
    requires Accepted(log) && j < |log| && log[j].Killed? && log[j].sig == Kill
    ensures exists i: nat :: i < j && PatientSince(log[..j], i, log[j].pid) && Unreadies(log[i + 1..j]) == STOP_POLLS
  {
    StepAt(log, j);
    var i := StoppingBeganWithTerm(log[..j]);
    assert log[..j][i + 1..] == log[i + 1..j];
  }

  predicate TermToRun(e: Event) {
    e.Killed? && e.program == RunScript && e.sig == Term
  }

  /** A restart was taken at c, and the supervisor has done nothing since. */
  ghost predicate JustTaken(log: seq<Event>, c: int, n: nat)
    requires n <= |log|
  {
    0 <= c < n && log[c].RestartTaken? && forall k :: c < k < n ==> Passive(log[k])
  }

  lemma {:induction false} TakingSince(log: seq<Event>) returns (c: nat)
    requires Accepted(log) && StateOf(log).stage.Taking?
    ensures JustTaken(log, c, |log|)
  {
    var l, e := Front(log), Last(log);
    TakenOnRequest(StateOf(l), e);
    if e.RestartTaken? {
      c := |l|;
    } else {
      FrontStep(log);
      c := TakingSince(l);
      assert forall k :: c < k < |l| ==> log[k] == l[k];
    }
  }

  /** A run is sent SIGTERM only for a shutdown or for the restart that was just taken. */
  lemma TermOnlyOnRequest(log: seq<Event>, k: nat)
    requires Accepted(log) && k < |log| && TermToRun(log[k])
    ensures TermBefore(log, k) || exists c :: JustTaken(log, c, k)
  {
    StepAt(log, k);
    TermSeen(log, k);
    if StateOf(log[..k]).stage.Taking? {
      var c := TakingSince(log[..k]);
      assert forall i :: c <= i < k ==> log[..k][i] == log[i];
      assert JustTaken(log, c, k);
    }
  }

  // ---- Restart requests ----

  predicate Usr1At(e: Event) {
    e.Delivered? && Usr1 in e.sigs
  }

  function Requests(log: seq<Event>): nat {
    if log == [] then 0 else Requests(Front(log)) + if Usr1At(Last(log)) then 1 else 0
  }

  function Restarts(log: seq<Event>): nat {
    if log == [] then 0 else Restarts(Front(log)) + if Last(log).RestartTaken? then 1 else 0
  }

  /** Restarts are never invented: each one taken has a delivered request of its own. */
  lemma {:induction false} RestartsNeverExceedRequests(log: seq<Event>)
    requires Accepted(log)
    ensures Restarts(log) + (if StateOf(log).restart then 1 else 0) <= Requests(log)
  {
    if log != [] {
      var s, e := StateOf(Front(log)), Last(log);
      FrontStep(log);
      RestartsNeverExceedRequests(Front(log));
      TakenOnRequest(s, e);
    }
  }

  lemma TakenOnRequest(s: State, e: Event)
    requires !NextStage(s, e).Broken?
    ensures e.RestartTaken? ==> s.restart && s.stage.Alive? && !Next(s, e).restart
    ensures !e.RestartTaken? ==> Next(s, e).restart == (s.restart || Usr1At(e))
    ensures Next(s, e).stage.Taking? ==> e.RestartTaken? || (s.stage.Taking? && Passive(e))
  {
  }

  predicate Restarting(s: Stage) {
    s.Taking? || (s.Stopping? && s.restart) || (s.Killing? && s.restart) || s.HookDue?
  }

  predicate StopAttempt(e: Event) {
    e.Accessed? && e.program == StopScript
  }

  ghost predicate TermThenHook(log: seq<Event>, c: int) {
    exists k, h :: 0 <= c < k < h < |log| && TermToRun(log[k]) && StopAttempt(log[h])
  }

  /** The request delivered at d is answered: it still waits, or it was taken at some later c and
      the restart of c is in progress or has stopped the run and attempted the stop hook. */
  ghost predicate Answered(log: seq<Event>, d: int) {
    StateOf(log).restart ||
    exists c :: 0 <= d < c < |log| && log[c].RestartTaken? && (Restarting(StateOf(log).stage) || TermThenHook(log, c))
  }

  lemma {:induction false} TakenOrWaiting(log: seq<Event>, d: nat)
    requires Accepted(log) && d < |log| && Usr1At(log[d])
    ensures StateOf(log).restart || exists c :: d < c < |log| && log[c].RestartTaken?
    decreases |log|
  {
    var n := |log| - 1;
    TakenOnRequest(StateOf(Front(log)), Last(log));
    if d < n && !Last(log).RestartTaken? {
      FrontStep(log);
      TakenOrWaiting(Front(log), d);
      if c :| d < c < n && Front(log)[c].RestartTaken? {
        assert log[c].RestartTaken?;
      }
    } else if d < n {
      assert log[n].RestartTaken?;
    }
  }

  ghost predicate TermSent(log: seq<Event>, c: nat) {
    exists k :: c < k < |log| && TermToRun(log[k])
  }

  /** After the restart taken at c: SIGTERM is due, or sent, or sent and followed by the hook. */
  ghost predicate Progress(log: seq<Event>, c: nat) {
    var s := StateOf(log).stage;
    s.Taking? || (Restarting(s) && !s.Taking? && TermSent(log, c)) || TermThenHook(log, c)
  }

  lemma StepOfRestart(s: State, e: Event)
    requires !NextStage(s, e).Broken? && Restarting(s.stage)
    ensures s.stage.Taking? ==> NextStage(s, e).Taking? || (TermToRun(e) && Restarting(NextStage(s, e)))
    ensures !s.stage.Taking? ==> StopAttempt(e) || (Restarting(NextStage(s, e)) && !NextStage(s, e).Taking?)
  {
  }

  lemma HookStays(l: seq<Event>, c: nat, e: Event)
    requires TermThenHook(l, c)
    ensures TermThenHook(l + [e], c)
  {
    var k, h :| 0 <= c < k < h < |l| && TermToRun(l[k]) && StopAttempt(l[h]);
    assert (l + [e])[k] == l[k] && (l + [e])[h] == l[h];
  }

  lemma {:induction false} RestartProgresses(log: seq<Event>, c: nat)
    requires Accepted(log) && c < |log| && log[c].RestartTaken?
    ensures Progress(log, c)
    decreases |log|
  {
    var n, l, e := |log| - 1, Front(log), Last(log);
    assert l + [e] == log;
    if c < n {
      FrontStep(log);
      RestartProgresses(l, c);
      if TermThenHook(l, c) {
        HookStays(l, c, e);
      } else {
        StepOfRestart(StateOf(l), e);
        if TermSent(l, c) {
          var k :| c < k < n && TermToRun(l[k]);
          assert TermToRun(log[k]) && log[n] == e;
        } else {
          assert log[n] == e;
        }
      }
    }
  }

  /** No lost restart, for any timing of the signals. */
  lemma NoLostRestart(log: seq<Event>, d: nat)
    requires Accepted(log) && d < |log| && Usr1At(log[d])
    ensures Answered(log, d)
  {
    TakenOrWaiting(log, d);
    if !StateOf(log).restart {
      var c :| d < c < |log| && log[c].RestartTaken?;
      RestartProgresses(log, c);
    }
  }

  /** Between a restart taken at c and the next run attempted at r, the old run was sent SIGTERM
      and then the stop hook was attempted. */
  lemma HookBeforeNextRun(log: seq<Event>, c: nat, r: nat)
    requires Accepted(log) && c < r < |log| && log[c].RestartTaken? && AttemptOf(log[r], RunScript)
    ensures TermThenHook(log[..r], c)
  {
    StepAt(log, r);
    RestartProgresses(log[..r], c);
  }

  // ---- The delay between two runs ----

  /** The nanoseconds slept. */
  function SleptIn(log: seq<Event>): nat {
    if log == [] then 0 else SleptIn(Front(log)) + SleptBy(Last(log))
  }

  function SleptBy(e: Event): nat {
    if e.Slept? then e.nanoseconds else 0
  }

  lemma SleepGrows(log: seq<Event>, i: nat, n: nat)
    requires i < n <= |log|
    ensures SleptIn(log[i..n]) == SleptIn(log[i..n - 1]) + SleptBy(log[n - 1])
  {
    assert Front(log[i..n]) == log[i..n - 1] && Last(log[i..n]) == log[n - 1];
  }

  /** A run is over, or could not be started. */
  predicate RunOver(e: Event) {
    (e.Waited? && e.proc.program.RunScript?) || e == ForkFailed(RunScript)
  }

  /** The stop hook is over, missing or not startable. */
  predicate HookOver(e: Event) {
    || (e.Waited? && e.proc.program.StopScript?)
    || e == ForkFailed(StopScript) || e == Accessed(StopScript, false)
  }

  /** How much can have been slept between the end of a run and a stage before the next one: at least and
      at most so many nanoseconds; the bounds of other stages admit nothing. */
  function Least(s: Stage): int {
    match s
    case Idle(pause) => if pause.Due? then pause.slept else if pause.NotDue? then 1 else 0
    case HookDue => 0
    case Found(hook, final) => if final || hook.StopHook? then 0 else 1
    case InHook(_, hook, final) => if final || hook.StopHook? then 0 else 1
    case _ => if Rank(s) >= 1 then 0 else 1
  }

  function Most(s: Stage): int {
    match s
    case Idle(pause) => if pause.Due? then pause.slept else 0
    case Found(_, final) => if final then SECOND else 0
    case InHook(_, _, final) => if final then SECOND else 0
    case _ => if Rank(s) >= 1 then SECOND else 0
  }

  predicate Waits(s: Stage, slept: nat) {
    Least(s) <= slept <= Most(s) && slept <= SECOND
  }

  lemma WaitsStep(s: State, e: Event, slept: nat)
    requires Waits(s.stage, slept) && !NextStage(s, e).Broken? && !AttemptOf(e, RunScript)
    ensures Waits(NextStage(s, e), slept + SleptBy(e))
  {
  }

  ghost predicate WaitsAt(log: seq<Event>, j: nat, n: nat)
    requires j < n <= |log|
  {
    Waits(StateOf(log[..n]).stage, SleptIn(log[j + 1..n]))
  }

  lemma WaitsNext(log: seq<Event>, j: nat, n: nat)
    requires Accepted(log) && j + 1 < n <= |log| && WaitsAt(log, j, n - 1) && !AttemptOf(log[n - 1], RunScript)
    ensures WaitsAt(log, j, n)
  {
    StageTo(log, n);
    SleepGrows(log, j + 1, n);
    WaitsStep(StateOf(log[..n - 1]), log[n - 1], SleptIn(log[j + 1..n - 1]));
  }

  lemma {:induction false} WaitsOn(log: seq<Event>, j: nat, n: nat)
    requires Accepted(log) && j < n <= |log| && WaitsAt(log, j, j + 1)
    requires forall k :: j < k < n ==> !AttemptOf(log[k], RunScript)
    ensures WaitsAt(log, j, n)
    decreases n
  {
    if j + 1 < n {
      WaitsOn(log, j, n - 1);
      assert !AttemptOf(log[n - 1], RunScript);
      WaitsNext(log, j, n);
    }
  }

  lemma WaitsFromRunOver(log: seq<Event>, j: nat)
    requires Accepted(log) && j < |log| && RunOver(log[j])
    ensures WaitsAt(log, j, j + 1)
  {
    StageAt(log, j);
    assert log[j + 1..j + 1] == [];
  }

  /** A service is run again: from the end of a run, or from a failed attempt to start one, until
      the next attempt at most one second is slept. */
  lemma RunFollowsWithinASecond(log: seq<Event>, j: nat, n: nat)
    requires Accepted(log) && j < n <= |log| && RunOver(log[j])
    requires forall k :: j < k < n ==> !AttemptOf(log[k], RunScript)
    ensures SleptIn(log[j + 1..n]) <= SECOND
  {
    WaitsFromRunOver(log, j);
    WaitsOn(log, j, n);
  }

  /** Until SIGTERM arrives, an idle supervisor does nothing but sleep and start the next run. */
  lemma OnlyARunFollows(log: seq<Event>, k: nat)
    requires Accepted(log) && k < |log| && StateOf(log[..k]).stage.Idle? && !TermBefore(log, k)
    ensures Passive(log[k]) || log[k].Slept? || AttemptOf(log[k], RunScript)
  {
    StepAt(log, k);
    TermSeen(log, k);
  }

  /** The delay is skipped only for a request that waits. */
  lemma {:induction false} SkippedMeansRequested(log: seq<Event>)
    requires Accepted(log)
    ensures StateOf(log).stage == Idle(Skipped) ==> StateOf(log).restart
  {
    if log != [] {
      FrontStep(log);
      SkippedMeansRequested(Front(log));
      SkippedStep(StateOf(Front(log)), Last(log));
    }
  }

  lemma SkippedStep(s: State, e: Event)
    requires s.stage == Idle(Skipped) ==> s.restart
    requires !NextStage(s, e).Broken?
    ensures Next(s, e).stage == Idle(Skipped) ==> Next(s, e).restart
  {
  }

  lemma {:induction false} RequestStays(log: seq<Event>, i: nat, n: nat)
    requires i <= n <= |log| && StateOf(log[..i]).restart
    requires forall k :: i <= k < n ==> !log[k].RestartTaken?
    ensures StateOf(log[..n]).restart
    decreases n
  {
    if i < n {
      RequestStays(log, i, n - 1);
      assert Front(log[..n]) == log[..n - 1] && Last(log[..n]) == log[n - 1];
    }
  }

  lemma {:induction false} NoRequestStays(log: seq<Event>, i: nat, n: nat)
    requires i <= n <= |log| && !StateOf(log[..i]).restart
    requires forall k :: i <= k < n ==> !Usr1At(log[k])
    ensures !StateOf(log[..n]).restart
    decreases n
  {
    if i < n {
      NoRequestStays(log, i, n - 1);
      assert Front(log[..n]) == log[..n - 1] && Last(log[..n]) == log[n - 1];
    }
  }

  /** The stages between a restart that was taken and the end of its stop hook. */
  predicate InRestart(s: Stage) {
    Restarting(s) || (s.Found? && !s.final && s.hook.StopHook?) || (s.InHook? && !s.final && s.hook.StopHook?)
  }

  lemma InRestartStep(s: State, e: Event)
    requires InRestart(s.stage) && !NextStage(s, e).Broken?
    ensures if HookOver(e) then NextStage(s, e) == Idle(PauseAfter(s.restart, s.term)) else InRestart(NextStage(s, e))
    ensures !e.RestartTaken? && !AttemptOf(e, RunScript)
  {
  }

  lemma IdleHasNoHook(s: State, e: Event)
    requires s.stage.Idle? && !NextStage(s, e).Broken? && Rank(NextStage(s, e)) == 0 && !AttemptOf(e, RunScript)
    ensures NextStage(s, e).Idle? && !HookOver(e) && !e.RestartTaken?
  {
  }

  lemma RestartNext(log: seq<Event>, n: nat)
    requires Accepted(log) && 0 < n <= |log| && InRestart(StateOf(log[..n - 1]).stage) && !HookOver(log[n - 1])
    ensures InRestart(StateOf(log[..n]).stage) && !log[n - 1].RestartTaken?
  {
    StageTo(log, n);
    InRestartStep(StateOf(log[..n - 1]), log[n - 1]);
  }

  lemma {:induction false} RestartGoesOn(log: seq<Event>, c: nat, n: nat)
    requires Accepted(log) && c < n <= |log| && log[c].RestartTaken?
    requires forall k :: c < k < n ==> !HookOver(log[k])
    ensures InRestart(StateOf(log[..n]).stage)
    decreases n
  {
    if c + 1 < n {
      RestartGoesOn(log, c, n - 1);
      RestartNext(log, n);
    } else {
      TakenAt(log, c);
    }
  }

  lemma NotTakenAgain(log: seq<Event>, c: nat, j: nat)
    requires Accepted(log) && c < j <= |log| && log[c].RestartTaken?
    requires forall k :: c < k < j ==> !HookOver(log[k])
    ensures forall k :: c < k < j ==> !log[k].RestartTaken?
  {
    forall k | c < k < j ensures !log[k].RestartTaken? {
      RestartGoesOn(log, c, k);
      RestartNext(log, k + 1);
    }
  }

  lemma TakenAt(log: seq<Event>, c: nat)
    requires Accepted(log) && c < |log| && log[c].RestartTaken?
    ensures StateOf(log[..c + 1]).stage.Taking? && !StateOf(log[..c + 1]).restart
  {
    StepAt(log, c);
  }

  lemma {:induction false} FirstHookOver(log: seq<Event>, c: nat, n: nat) returns (j: nat)
    requires c < n <= |log|
    ensures c < j <= n && (j < n ==> HookOver(log[j])) && forall k :: c < k < j ==> !HookOver(log[k])
    decreases n - c
  {
    j := c + 1;
    if j < n && !HookOver(log[j]) {
      j := FirstHookOver(log, c + 1, n);
    }
  }

  lemma AtARun(log: seq<Event>, r: nat)
    requires Accepted(log) && r < |log| && AttemptOf(log[r], RunScript)
    ensures var s := StateOf(log[..r]); s.stage.Idle? && Ready(s.stage.pause, s.restart)
  {
    StageAt(log, r);
  }

  lemma BeforeARun(log: seq<Event>, n: nat, r: nat)
    requires Accepted(log) && n <= r < |log| && AttemptOf(log[r], RunScript)
    ensures RankAt(log, n) == 0
  {
    AtARun(log, r);
    RankIsMonotone(log, n, r);
  }

  lemma DelayStep(log: seq<Event>, n: nat, r: nat)
    requires Accepted(log) && 0 < n <= r < |log| && AttemptOf(log[r], RunScript)
    requires StateOf(log[..n - 1]).stage.Idle? && !AttemptOf(log[n - 1], RunScript)
    ensures StateOf(log[..n]).stage.Idle? && !HookOver(log[n - 1]) && !log[n - 1].RestartTaken?
  {
    StageTo(log, n);
    BeforeARun(log, n, r);
    IdleHasNoHook(StateOf(log[..n - 1]), log[n - 1]);
  }

  lemma {:induction false} StaysIdle(log: seq<Event>, j: nat, n: nat, r: nat)
    requires Accepted(log) && j < n <= r < |log| && AttemptOf(log[r], RunScript)
    requires StateOf(log[..j + 1]).stage.Idle?
    requires forall k :: j < k < r ==> !AttemptOf(log[k], RunScript)
    ensures StateOf(log[..n]).stage.Idle?
    decreases n
  {
    if j + 1 < n {
      StaysIdle(log, j, n - 1, r);
      DelayStep(log, n, r);
    }
  }

  /** From j to a run attempted at r, without another attempt in between, there is only the delay. */
  lemma OnlyTheDelay(log: seq<Event>, j: nat, r: nat)
    requires Accepted(log) && j < r < |log| && AttemptOf(log[r], RunScript)
    requires StateOf(log[..j + 1]).stage.Idle?
    requires forall k :: j < k < r ==> !AttemptOf(log[k], RunScript)
    ensures forall k :: j < k < r ==> !HookOver(log[k]) && !log[k].RestartTaken?
  {
    forall k | j < k < r ensures !HookOver(log[k]) && !log[k].RestartTaken? {
      StaysIdle(log, j, k, r);
      DelayStep(log, k + 1, r);
    }
  }

  function PauseAt(log: seq<Event>, j: nat): Pause
    requires j <= |log|
  {
    PauseAfter(StateOf(log[..j]).restart, StateOf(log[..j]).term)
  }

  /** The restart taken at c is followed by a run attempted at r; its stop hook is over at j. */
  ghost predicate RestartedAt(log: seq<Event>, c: nat, j: nat, r: nat) {
    && c < j < r < |log| && log[c].RestartTaken? && AttemptOf(log[r], RunScript)
    && (forall k :: c < k < r ==> !AttemptOf(log[k], RunScript) && !log[k].RestartTaken?)
    && (forall k :: c < k < r ==> (HookOver(log[k]) <==> k == j))
  }

  lemma TheHookIsOver(log: seq<Event>, c: nat, r: nat) returns (j: nat)
    requires Accepted(log) && c < r < |log| && log[c].RestartTaken? && AttemptOf(log[r], RunScript)
    requires forall k :: c < k < r ==> !AttemptOf(log[k], RunScript)
    ensures RestartedAt(log, c, j, r)
    ensures StateOf(log[..j + 1]).stage == Idle(PauseAt(log, j))
  {
    j := FirstHookOver(log, c, r);
    HookIsReached(log, c, j, r);
    HookEnds(log, j);
    NotTakenAgain(log, c, j);
    OnlyTheDelay(log, j, r);
    assert !log[j].RestartTaken?;
    IsRestarted(log, c, j, r);
  }

  lemma IsRestarted(log: seq<Event>, c: nat, j: nat, r: nat)
    requires c < j < r < |log| && log[c].RestartTaken? && AttemptOf(log[r], RunScript) && HookOver(log[j])
    requires forall k :: c < k < r ==> !AttemptOf(log[k], RunScript)
    requires forall k :: c < k < j ==> !HookOver(log[k]) && !log[k].RestartTaken?
    requires forall k :: j < k < r ==> !HookOver(log[k]) && !log[k].RestartTaken?
    ensures RestartedAt(log, c, j, r)
  {
    assert !log[j].RestartTaken?;
  }

  lemma HookIsReached(log: seq<Event>, c: nat, j: nat, r: nat)
    requires Accepted(log) && c < j <= r < |log| && log[c].RestartTaken? && AttemptOf(log[r], RunScript)
    requires forall k :: c < k < j ==> !HookOver(log[k])
    ensures j < r && InRestart(StateOf(log[..j]).stage)
  {
    RestartGoesOn(log, c, j);
    AtARun(log, r);
  }

  lemma HookEnds(log: seq<Event>, j: nat)
    requires Accepted(log) && j < |log| && HookOver(log[j]) && InRestart(StateOf(log[..j]).stage)
    ensures StateOf(log[..j + 1]).stage == Idle(PauseAt(log, j))
  {
    StageAt(log, j);
    InRestartStep(StateOf(log[..j]), log[j]);
  }

  /** The delay after a restart. The request is cleared when it is taken, so a lone restart waits the
      full second after its hook; only a request that arrives before the hook is over, and so waits
      by then, skips the delay, and then it does so completely. */
  lemma RestartDelay(log: seq<Event>, c: nat, r: nat) returns (j: nat)
    requires Accepted(log) && c < r < |log| && log[c].RestartTaken? && AttemptOf(log[r], RunScript)
    requires forall k :: c < k < r ==> !AttemptOf(log[k], RunScript)
    ensures RestartedAt(log, c, j, r) && SleptIn(log[j + 1..r]) <= SECOND
    ensures (forall k :: c < k < r ==> !Usr1At(log[k])) ==> SleptIn(log[j + 1..r]) == SECOND
    ensures (exists k :: c < k < j && Usr1At(log[k])) ==> SleptIn(log[j + 1..r]) == 0
  {
    j := TheHookIsOver(log, c, r);
    TheDelay(log, j, r);
    if forall k :: c < k < r ==> !Usr1At(log[k]) {
      LoneDelay(log, c, j, r);
    }
    if k :| c < k < j && Usr1At(log[k]) {
      SkippedDelay(log, c, j, r, k);
    }
  }

  lemma LoneDelay(log: seq<Event>, c: nat, j: nat, r: nat)
    requires Accepted(log) && RestartedAt(log, c, j, r) && forall k :: c < k < r ==> !Usr1At(log[k])
    requires StateOf(log[..r]).restart || SleptIn(log[j + 1..r]) == SECOND
    ensures SleptIn(log[j + 1..r]) == SECOND
  {
    TakenAt(log, c);
    NoRequestStays(log, c + 1, r);
  }

  lemma SkippedDelay(log: seq<Event>, c: nat, j: nat, r: nat, k: nat)
    requires Accepted(log) && RestartedAt(log, c, j, r) && c < k < j && Usr1At(log[k])
    requires StateOf(log[..j + 1]).stage == Idle(PauseAt(log, j))
    requires StateOf(log[..r]).stage == Idle(Skipped) ==> SleptIn(log[j + 1..r]) == 0
    ensures SleptIn(log[j + 1..r]) == 0
  {
    RequestAt(log, k);
    RequestStays(log, k + 1, j);
    NoPauseStays(log, j, r, r, PauseAt(log, j));
    AtARun(log, r);
  }

  lemma RequestAt(log: seq<Event>, k: nat)
    requires Accepted(log) && k < |log| && Usr1At(log[k])
    ensures StateOf(log[..k + 1]).restart
  {
    StepAt(log, k);
  }

  /** What was slept between the end of a hook at j and the next run attempt at r. */
  lemma TheDelay(log: seq<Event>, j: nat, r: nat)
    requires Accepted(log) && j < r < |log| && AttemptOf(log[r], RunScript)
    requires StateOf(log[..j + 1]).stage == Idle(PauseAt(log, j))
    requires forall k :: j < k < r ==> !AttemptOf(log[k], RunScript)
    ensures SleptIn(log[j + 1..r]) <= SECOND
    ensures StateOf(log[..r]).restart || SleptIn(log[j + 1..r]) == SECOND
    ensures StateOf(log[..r]).stage == Idle(Skipped) ==> SleptIn(log[j + 1..r]) == 0
  {
    assert log[j + 1..j + 1] == [];
    WaitsOn(log, j, r);
    AtARun(log, r);
    AcceptedPrefix(log, r);
    SkippedMeansRequested(log[..r]);
  }

  lemma NoPauseNext(log: seq<Event>, n: nat, r: nat, pause: Pause)
    requires Accepted(log) && 0 < n <= r < |log| && AttemptOf(log[r], RunScript) && !pause.Due?
    requires StateOf(log[..n - 1]).stage == Idle(pause) && !AttemptOf(log[n - 1], RunScript)
    ensures StateOf(log[..n]).stage == Idle(pause)
  {
    StageTo(log, n);
    BeforeARun(log, n, r);
    NoPauseStep(StateOf(log[..n - 1]), log[n - 1], pause);
  }

  lemma {:induction false} NoPauseStays(log: seq<Event>, j: nat, n: nat, r: nat, pause: Pause)
    requires Accepted(log) && j < n <= r < |log| && AttemptOf(log[r], RunScript) && !pause.Due?
    requires StateOf(log[..j + 1]).stage == Idle(pause)
    requires forall k :: j < k < r ==> !AttemptOf(log[k], RunScript)
    ensures StateOf(log[..n]).stage == Idle(pause)
    decreases n
  {
    if j + 1 < n {
      NoPauseStays(log, j, n - 1, r, pause);
      assert j < n - 1 < r && !AttemptOf(log[n - 1], RunScript);
      NoPauseNext(log, n, r, pause);
    }
  }

  lemma NoPauseStep(s: State, e: Event, pause: Pause)
    requires s.stage == Idle(pause) && !pause.Due? && !AttemptOf(e, RunScript)
    requires !NextStage(s, e).Broken? && Rank(NextStage(s, e)) == 0
    ensures NextStage(s, e) == Idle(pause)
  {
  }

  /** The kernel and the supervisor have come this far with the first k events. */
  ghost predicate Reached(log: seq<Event>, k: nat, w: World, s: State)
    requires k <= |log|
  {
    && Legal(log[..k]) && Replay(log[..k]) == w
    && StateOf(log[..k]) == s && !s.stage.Broken?
  }

  lemma Extend(log: seq<Event>, k: nat, w: World, s: State)
    requires k < |log| && Reached(log, k, w, s) && Enabled(w, log[k]) && !NextStage(s, log[k]).Broken?
    ensures Reached(log, k + 1, Apply(w, log[k]), Next(s, log[k]))
  {
    assert Front(log[..k + 1]) == log[..k] && Last(log[..k + 1]) == log[k];
  }

  /** The mask that PID 1 leaves to its children. */
  const INHERITED: set<Signal> := {Chld, Term, Int}

  /** A run is restarted on one request, and nothing else happens. */
  function LoneRestart(): seq<Event> {
    LoneRequest() + LoneStop() + LonePause()
  }

  function LoneRequest(): seq<Event> {
    [Masked(INHERITED), Forked(2, RunScript), Raised(Usr1), Delivered({Usr1}), Unready(2, false)]
  }

  function LoneStop(): seq<Event> {
    [RestartTaken, Killed(2, RunScript, Term), Died(2, Exited(0)), LoneWait()]
  }

  function LoneWait(): Event {
    Waited(2, Proc(0, RunScript, Zombie(Exited(0))), false)
  }

  function LonePause(): seq<Event> {
    [Accessed(StopScript, false), Slept(SECOND), Forked(3, RunScript)]
  }

  function Alone(life: Life, pending: set<Signal>): World {
    World(map[2 := Proc(0, RunScript, life)], 1, pending, INHERITED)
  }

  function Childless(births: nat, pending: set<Signal>): World {
    World(map[], births, pending, INHERITED)
  }

  function Once(stage: Stage, restart: bool, clock: nat): State {
    State(stage, INHERITED, false, restart, 1, 0, clock, 0)
  }

  ghost predicate Begins(log: seq<Event>) {
    && |log| == 12 && log[0] == Masked(INHERITED) && log[1] == Forked(2, RunScript)
    && log[2] == Raised(Usr1) && log[3] == Delivered({Usr1}) && log[4] == Unready(2, false)
  }

  ghost predicate Stops(log: seq<Event>) {
    && |log| == 12 && log[5] == RestartTaken && log[6] == Killed(2, RunScript, Term)
    && log[7] == Died(2, Exited(0)) && log[8] == LoneWait()
  }

  ghost predicate Ends(log: seq<Event>) {
    |log| == 12 && log[9] == Accessed(StopScript, false) && log[10] == Slept(SECOND) && log[11] == Forked(3, RunScript)
  }

  lemma LoneRestartBegins(log: seq<Event>)
    requires Begins(log)
    ensures Reached(log, 3, Alone(Running, {Usr1}), Once(Serving(2, PERIOD), false, 0))
  {
    assert log[..0] == [];
    Extend(log, 0, World(map[], 0, {}, {}), START);
    Extend(log, 1, Childless(0, {}), State(Idle(NotDue), INHERITED, false, false, 0, 0, 0, 0));
    Extend(log, 2, Alone(Running, {}), Once(Serving(2, PERIOD), false, 0));
  }

  lemma LoneRestartIsAsked(log: seq<Event>)
    requires Begins(log)
    ensures Reached(log, 5, Alone(Running, {}), Once(Alive(2, true, false), true, 0))
  {
    LoneRestartBegins(log);
    Extend(log, 3, Alone(Running, {Usr1}), Once(Serving(2, PERIOD), false, 0));
    Extend(log, 4, Alone(Running, {}), Once(Serving(2, PERIOD), true, 0));
  }

  lemma LoneRestartIsTaken(log: seq<Event>)
    requires Begins(log) && Stops(log)
    ensures Reached(log, 7, Alone(Running, {}), Once(Stopping(2, 0, true), false, 0))
  {
    LoneRestartIsAsked(log);
    Extend(log, 5, Alone(Running, {}), Once(Alive(2, true, false), true, 0));
    Extend(log, 6, Alone(Running, {}), Once(Taking(2), false, 0));
  }

  lemma LoneRestartStops(log: seq<Event>)
    requires Begins(log) && Stops(log)
    ensures Reached(log, 9, Childless(1, {Chld}), Once(HookDue, false, 0))
  {
    var w := Alone(Zombie(Exited(0)), {Chld});
    LoneRestartIsTaken(log);
    Extend(log, 7, Alone(Running, {}), Once(Stopping(2, 0, true), false, 0));
    assert w.children - {2} == map[];
    Extend(log, 8, w, Once(Stopping(2, 0, true), false, 0));
  }

  lemma LoneRestartHooks(log: seq<Event>)
    requires Begins(log) && Stops(log) && Ends(log)
    ensures Reached(log, 10, Childless(1, {Chld}), Once(Idle(Due(0)), false, 0))
  {
    LoneRestartStops(log);
    Extend(log, 9, Childless(1, {Chld}), Once(HookDue, false, 0));
  }

  lemma LoneRestartPauses(log: seq<Event>)
    requires Begins(log) && Stops(log) && Ends(log)
    ensures Reached(log, 11, Childless(1, {Chld}), Once(Idle(Due(SECOND)), false, SECOND))
  {
    LoneRestartHooks(log);
    Extend(log, 10, Childless(1, {Chld}), Once(Idle(Due(0)), false, 0));
  }

  lemma LoneRestartEnds(log: seq<Event>)
    requires Begins(log) && Stops(log) && Ends(log)
    ensures Legal(log) && Accepted(log)
  {
    LoneRestartPauses(log);
    Extend(log, 11, Childless(1, {Chld}), Once(Idle(Due(SECOND)), false, SECOND));
    assert log[..12] == log;
  }

  lemma LoneRestartIsOne(log: seq<Event>)
    requires Begins(log) && Stops(log) && Ends(log)
    ensures RestartedAt(log, 5, 9, 11) && SleptIn(log[10..11]) == SECOND
  {
    SleepGrows(log, 10, 11);
    assert log[10..10] == [];
  }

  /** The restart was asked for, and yet the whole second is slept before the next run. */
  lemma LoneRestartWaits()
    ensures var log := LoneRestart();
            Legal(log) && Accepted(log) && RestartedAt(log, 5, 9, 11) && SleptIn(log[10..11]) == SECOND
  {
    var log := LoneRestart();
    assert Begins(log) && Stops(log) && Ends(log);
    LoneRestartEnds(log);
    LoneRestartIsOne(log);
  }

  // ---- The signal mask ----

  lemma MaskStep(s: State, e: Event, w: World)
    requires !NextStage(s, e).Broken? && s.blocked == w.blocked
    ensures Next(s, e).blocked == Apply(w, e).blocked
  {
  }

  /** The state knows the mask. */
  lemma {:induction false} MaskHolds(log: seq<Event>)
    requires Accepted(log)
    ensures StateOf(log).blocked == Replay(log).blocked
  {
    if log != [] {
      FrontStep(log);
      MaskHolds(Front(log));
      MaskStep(StateOf(Front(log)), Last(log), Replay(Front(log)));
    }
  }

  lemma KeepsMask(s: State, e: Event)
    requires !s.stage.Fresh? && !NextStage(s, e).Broken?
    ensures Next(s, e).blocked == s.blocked && !NextStage(s, e).Fresh?
  {
  }

  /** A supervisor never changes the mask that it was given. */
  lemma {:induction false} MaskIsKept(log: seq<Event>, i: nat)
    requires Accepted(log) && i <= |log| && !StateOf(log[..i]).stage.Fresh?
    ensures StateOf(log[..i]).blocked == StateOf(log).blocked && !StateOf(log).stage.Fresh?
    decreases |log|
  {
    if i < |log| {
      assert Front(log)[..i] == log[..i];
      FrontStep(log);
      MaskIsKept(Front(log), i);
      KeepsMask(StateOf(Front(log)), Last(log));
    } else {
      assert log[..i] == log;
    }
  }

  lemma NotFreshAt(log: seq<Event>, i: nat)
    requires Accepted(log) && i < |log| && (log[i].Forked? || log[i].Delivered?)
    ensures !StateOf(log[..i]).stage.Fresh?
  {
    StageAt(log, i);
  }

  /** So its scripts inherit that same mask. */
  lemma ScriptsInheritTheMask(log: seq<Event>, i: nat)
    requires Accepted(log) && i < |log| && log[i].Forked?
    ensures Replay(log[..i]).blocked == StateOf(log).blocked
  {
    NotFreshAt(log, i);
    MaskIsKept(log, i);
    AcceptedPrefix(log, i);
    MaskHolds(log[..i]);
  }

  /** A supervisor that was given a mask with SIGTERM in it, as every one is that PID 1 or a child of PID 1
      starts, never hears of a SIGTERM and so never begins to shut down, whatever is sent to it. */
  lemma DeafSupervisor(log: seq<Event>)
    requires Legal(log) && Accepted(log) && Term in StateOf(log).blocked
    ensures forall i :: 0 <= i < |log| && log[i].Delivered? ==> Term !in log[i].sigs
    ensures !StateOf(log).term && !LeavingFor(StateOf(log).stage)
  {
    forall i | 0 <= i < |log| && log[i].Delivered? ensures Term !in log[i].sigs {
      NotFreshAt(log, i);
      MaskIsKept(log, i);
      AcceptedPrefix(log, i);
      MaskHolds(log[..i]);
      LegalAt(log, i);
    }
    TermIsRemembered(log);
    TermAtTheEnd(log);
  }

  // ---- Promptness ----

  lemma UrgedNext(log: seq<Event>, n: nat, stage: Stage)
    requires Accepted(log) && 0 < n <= |log|
    requires stage.Alive? && StateOf(log[..n - 1]).stage == stage && Passive(log[n - 1])
    ensures StateOf(log[..n]).stage == stage
  {
    StageTo(log, n);
  }

  lemma {:induction false} UrgedStays(log: seq<Event>, i: nat, k: nat, stage: Stage)
    requires Accepted(log) && i < k <= |log| && stage.Alive? && StateOf(log[..i + 1]).stage == stage
    requires forall j :: i < j < k ==> Passive(log[j])
    ensures StateOf(log[..k]).stage == stage
    decreases k
  {
    if i + 1 < k {
      UrgedStays(log, i, k - 1, stage);
      UrgedNext(log, k, stage);
    }
  }

  lemma UrgedStep(s: State, e: Event)
    requires s.stage.Alive? && (s.stage.restart || s.stage.term) && !NextStage(s, e).Broken? && !Passive(e)
    ensures e.RestartTaken? || (!s.stage.restart && e == Killed(s.stage.pid, RunScript, Term))
  {
  }

  /** Prompt reaction: when a poll finds the run alive after a flag was set, then the next thing the
      supervisor does, before it sleeps again, is to take the restart or to send SIGTERM; a
      restart that waits at the poll goes before a shutdown. */
  lemma PromptReaction(log: seq<Event>, i: nat, k: nat)
    requires Accepted(log) && i < k < |log| && StateOf(log[..i]).stage.Serving?
    requires log[i].Unready? && !log[i].interrupted
    requires StateOf(log[..i]).restart || StateOf(log[..i]).term
    requires (forall j :: i < j < k ==> Passive(log[j])) && !Passive(log[k])
    ensures log[k].RestartTaken? || (!StateOf(log[..i]).restart && log[k] == Killed(log[i].pid, RunScript, Term))
  {
    StageAt(log, i);
    UrgedStays(log, i, k, StateOf(log[..i + 1]).stage);
    StageAt(log, k);
    UrgedStep(StateOf(log[..k]), log[k]);
  }

  /** What was slept since the poll that found the run alive. */
  predicate PolledBefore(s: Stage, slept: nat) {
    match s
    case Alive(_, _, _) => slept == 0
    case Serving(_, time) => slept == time && slept <= PERIOD
    case _ => false
  }

  lemma PolledStep(s: State, e: Event, slept: nat)
    requires PolledBefore(s.stage, slept) && !NextStage(s, e).Broken? && (Passive(e) || e.Slept?)
    ensures PolledBefore(NextStage(s, e), slept + SleptBy(e))
  {
  }

  lemma PolledNext(log: seq<Event>, i: nat, n: nat)
    requires Accepted(log) && i + 1 < n <= |log| && (Passive(log[n - 1]) || log[n - 1].Slept?)
    requires PolledBefore(StateOf(log[..n - 1]).stage, SleptIn(log[i + 1..n - 1]))
    ensures PolledBefore(StateOf(log[..n]).stage, SleptIn(log[i + 1..n]))
  {
    StageTo(log, n);
    SleepGrows(log, i + 1, n);
    PolledStep(StateOf(log[..n - 1]), log[n - 1], SleptIn(log[i + 1..n - 1]));
  }

  lemma {:induction false} PolledSince(log: seq<Event>, i: nat, k: nat)
    requires Accepted(log) && i < k <= |log| && StateOf(log[..i + 1]).stage.Alive?
    requires forall j :: i < j < k ==> Passive(log[j]) || log[j].Slept?
    ensures PolledBefore(StateOf(log[..k]).stage, SleptIn(log[i + 1..k]))
    decreases k
  {
    if i + 1 < k {
      PolledSince(log, i, k - 1);
      PolledNext(log, i, k);
    } else {
      assert log[i + 1..k] == [];
    }
  }

  lemma PollStep(s: State, e: Event, slept: nat)
    requires PolledBefore(s.stage, slept) && !NextStage(s, e).Broken? && !Passive(e) && !e.Slept?
    ensures slept <= PERIOD
    ensures s.restart || s.term || (slept == PERIOD && (e.Unready? || e.Waited?))
  {
  }

  /** A run is polled ten times a second: after a poll that found it alive, and unless a flag is set by then,
      the next thing the supervisor does is to poll again, after it has slept exactly a tenth of
      a second; in any case it sleeps no more than that. */
  lemma PolledEveryTenth(log: seq<Event>, i: nat, k: nat)
    requires Accepted(log) && i < k < |log| && StateOf(log[..i]).stage.Serving?
    requires log[i].Unready? && !log[i].interrupted
    requires (forall j :: i < j < k ==> Passive(log[j]) || log[j].Slept?) && !Passive(log[k]) && !log[k].Slept?
    ensures PERIOD == 100_000_000 && SleptIn(log[i + 1..k]) <= PERIOD
    ensures || StateOf(log[..k]).restart || StateOf(log[..k]).term
            || (SleptIn(log[i + 1..k]) == PERIOD && (log[k].Unready? || log[k].Waited?))
  {
    StageAt(log, i);
    PolledSince(log, i, k);
    StageAt(log, k);
    PollStep(StateOf(log[..k]), log[k], SleptIn(log[i + 1..k]));
  }

  // ---- Leaving ----

  lemma PassiveStays(s: State, e: Event)
    requires Passive(e) && !s.stage.Fresh?
    ensures NextStage(s, e) == s.stage
  {
  }

  lemma {:induction false} LeavesNext(log: seq<Event>, j: nat, k: nat)
    requires Accepted(log) && j < k <= |log| && forall i :: j < i < k ==> Passive(log[i])
    requires !StateOf(log[..j + 1]).stage.Fresh?
    ensures StateOf(log[..k]).stage == StateOf(log[..j + 1]).stage
    decreases k
  {
    if j + 1 < k {
      LeavesNext(log, j, k - 1);
      StageTo(log, k);
      PassiveStays(StateOf(log[..k - 1]), log[k - 1]);
    }
  }

  lemma LeavesStep(s: State, e: Event)
    requires s.term && !NextStage(s, e).Broken?
    ensures e.Waited? && e.proc.program.RunScript? ==> NextStage(s, e) in {Idle(Leaving), HookDue, Closing}
    ensures HookOver(e) ==> NextStage(s, e) in {Idle(Leaving), FinishDue}
  {
  }

  lemma OnlyTheEndFollows(s: State, e: Event)
    requires s.stage in {Idle(Leaving), HookDue, Closing, FinishDue} && !NextStage(s, e).Broken? && !Passive(e)
    ensures e.Accessed? && e.program == if s.stage.FinishDue? then FinishScript else StopScript
  {
  }

  /** A service that ends after SIGTERM is not waited for and not run again: once its run is collected the next
      thing done is to look for the stop hook; once that is over, to look for it again for the
      shutdown, if it was tried for a restart, or else for the finish hook. */
  lemma LeavesAtOnce(log: seq<Event>, j: nat, k: nat)
    requires Accepted(log) && j < k < |log| && TermBefore(log, j)
    requires (forall i :: j < i < k ==> Passive(log[i])) && !Passive(log[k])
    ensures log[j].Waited? && log[j].proc.program.RunScript? ==> StopAttempt(log[k])
    ensures HookOver(log[j]) ==> StopAttempt(log[k]) || (log[k].Accessed? && log[k].program == FinishScript)
  {
    if HookOver(log[j]) || (log[j].Waited? && log[j].proc.program.RunScript?) {
      TermSeen(log, j);
      StageAt(log, j);
      LeavesStep(StateOf(log[..j]), log[j]);
      LeavesNext(log, j, k);
      StageAt(log, k);
      OnlyTheEndFollows(StateOf(log[..k]), log[k]);
    }
  }

  // ---- Progress ----

  /** Something the supervisor did, other than to sleep. */
  predicate Deed(e: Event) {
    !Passive(e) && !e.Slept? && !e.Masked?
  }

  function Deeds(log: seq<Event>): nat {
    if log == [] then 0 else Deeds(Front(log)) + if Deed(Last(log)) then 1 else 0
  }

  lemma {:induction false} DriftHasNoDeeds(l0: seq<Event>, l1: seq<Event>)
    requires Drifts(l0, l1)
    ensures Deeds(l1) == Deeds(l0)
    decreases |l1|
  {
    if |l0| < |l1| {
      assert Ambient(Last(l1));
      DriftHasNoDeeds(l0, Front(l1));
    } else {
      assert l0 == l1;
    }
  }

  lemma DoesDeeds(l0: seq<Event>, l1: seq<Event>, e: Event)
    requires Does(l0, l1, e)
    ensures Deeds(l1) == Deeds(l0) + if Deed(e) then 1 else 0
  {
    DriftHasNoDeeds(l0, Front(l1));
  }

  lemma {:induction false} DeedIsCounted(log: seq<Event>, k: nat)
    requires k < |log| && Deed(log[k])
    ensures Deeds(log) > 0
    decreases |log|
  {
    if k < |log| - 1 {
      DeedIsCounted(Front(log), k);
    }
  }

  lemma {:induction false} RunsAreDeeds(log: seq<Event>)
    ensures StateOf(log).runs <= Deeds(log)
  {
    if log != [] {
      RunsAreDeeds(Front(log));
    }
  }

  predicate Untouched(e: Event) {
    Passive(e) || e.Masked?
  }

  /** The first thing the supervisor did at all was to start the run script, unless SIGTERM came first. */
  ghost predicate RunsFirst(log: seq<Event>) {
    exists k :: 0 <= k < |log| && FirstAt(log, k)
  }

  ghost predicate FirstAt(log: seq<Event>, k: nat)
    requires k < |log|
  {
    && (forall j :: 0 <= j < k ==> Untouched(log[j]))
    && (AttemptOf(log[k], RunScript) || (TermBefore(log, k) && StopAttempt(log[k])))
  }

  lemma FirstStays(log: seq<Event>, k: nat)
    requires k < |log| - 1 && FirstAt(Front(log), k)
    ensures FirstAt(log, k)
  {
    assert forall j :: 0 <= j <= k ==> log[j] == Front(log)[j];
    assert Front(log)[..k] == log[..k];
    TermSeen(Front(log), k);
    TermSeen(log, k);
  }

  lemma FirstDeedStep(s: State, e: Event)
    requires (s.stage.Fresh? || s.stage == Idle(NotDue)) && !NextStage(s, e).Broken?
    ensures if Deed(e) then AttemptOf(e, RunScript) || (s.term && StopAttempt(e))
            else Untouched(e) && (NextStage(s, e).Fresh? || NextStage(s, e) == Idle(NotDue))
  {
  }

  lemma {:induction false} NothingDoneYet(log: seq<Event>)
    requires Accepted(log) && Deeds(log) == 0
    ensures StateOf(log).stage.Fresh? || StateOf(log).stage == Idle(NotDue)
    ensures forall j :: 0 <= j < |log| ==> Untouched(log[j])
  {
    if log != [] {
      FrontStep(log);
      NothingDoneYet(Front(log));
      FirstDeedStep(StateOf(Front(log)), Last(log));
      assert forall j :: 0 <= j < |log| - 1 ==> log[j] == Front(log)[j];
    }
  }

  lemma {:induction false} FirstDeed(log: seq<Event>)
    requires Accepted(log) && Deeds(log) > 0
    ensures RunsFirst(log)
  {
    var n := |log| - 1;
    FrontStep(log);
    if Deeds(Front(log)) > 0 {
      FirstDeed(Front(log));
      var k :| 0 <= k < n && FirstAt(Front(log), k);
      FirstStays(log, k);
    } else {
      FirstIsLast(log);
    }
  }

  lemma FirstIsLast(log: seq<Event>)
    requires Accepted(log) && Deeds(log) > 0 && Deeds(Front(log)) == 0
    ensures FirstAt(log, |log| - 1)
  {
    var n := |log| - 1;
    FrontStep(log);
    NothingDoneYet(Front(log));
    FirstDeedStep(StateOf(Front(log)), Last(log));
    assert log[..n] == Front(log) && forall j :: 0 <= j < n ==> log[j] == Front(log)[j];
    TermSeen(log, n);
  }
}
