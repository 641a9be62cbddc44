/** PID 1: the signal layer that joins the mode controller and the registry, and the main
    loop. The three signals are blocked except inside sigsuspend, so that handlers run there
    only, and everything else runs in normal context. */
module Engine {
  import opened Common
  import opened Kernel
  import opened HsvTable
  import opened Protocol
  import opened Mode
  import opened Registry
  import opened OnBoot
  import opened Feed
  import Process

  /** What PID 1 has at one moment, outside of mode changes. */
  datatype Moment = Moment(log: seq<Event>, mode: int, md2Pid: int, table: seq<Entry>, boot: Directory)

  /** The three flags. */
  datatype Flags = Flags(chld: bool, term: bool, int_: bool)

  function FlagsOf(sigs: set<Signal>): Flags {
    Flags(Chld in sigs, Term in sigs, Int in sigs)
  }

  /** Exactly a change of the machine mode. */
  ghost predicate Changes(mode: int, m: Moment, m': Moment) {
    && m'.table == m.table && m'.boot == m.boot
    && if mode == MODE_MD0 && m.mode == MODE_MD2 then
         && m'.mode == MODE_MD0 && m'.md2Pid == -1
         && exists acts :: Performs(m.log, m'.log, acts) && HaltActs(acts, m.md2Pid)
       else if mode == MODE_MD1 && m.mode == MODE_NONE then
         && m'.mode == (if m'.md2Pid > 0 then MODE_MD2 else MODE_NONE)
         && exists acts :: Performs(m.log, m'.log, acts) && BootActs(acts, m'.md2Pid)
       else m' == m
  }

  /** Exactly a pass of the reap loop: nothing but collections, of which the mode and the table hear. */
  ghost predicate Reaps(m: Moment, m': Moment) {
    && !HasZombie(Replay(m'.log))
    && exists acts :: Performs(m.log, m'.log, acts) && ReapActs(acts) && m' == AfterReaping(m, m'.log, acts)
  }

  function AfterReaping(m: Moment, log: seq<Event>, acts: seq<Event>): Moment {
    var m' := m.(log := log, table := TableThrough(m.table, acts));
    if m.mode == MODE_MD2 && Loses(acts, m.md2Pid) then m'.(mode := MODE_NONE, md2Pid := -1) else m'
  }

  /** Exactly one pass over the flags. */
  ghost predicate Processes(flags: Flags, m: Moment, m': Moment) {
    exists mid :: HeedsTerm(flags, m, mid) && HeedsChld(flags, mid, m')
  }

  ghost predicate HeedsTerm(flags: Flags, m: Moment, m': Moment) {
    if flags.term then Changes(MODE_MD0, m, m') else m' == m
  }

  ghost predicate HeedsChld(flags: Flags, m: Moment, m': Moment) {
    if flags.chld then Reaps(m, m') else m' == m
  }

  /** A request has done exactly this to mode, table or boot directory, and nothing to the other two. */
  ghost predicate Serves(r: Request, sv: Tree, ok: bool, m: Moment, m': Moment) {
    match r
    case SetMode(mode) =>
      ok && Changes(mode, m, m')
    case EnableService(name) =>
      (ok <==> CanEnable(name, sv)) && m' == m.(boot := EditStep(m.boot, Enabling(name), sv))
    case DisableService(name) =>
      (ok <==> CanDisable(name)) && m' == m.(boot := EditStep(m.boot, Disabling(name), sv))
    case StartService(name) =>
      if StatOf(sv, ServicePathOr(name)) == Stat.Directory && Startable(m.table, name)
      then m' == m.(log := m'.log, table := m'.table)
           && Launched(ServicePathOr(name), ok, m.log, m.table, m'.log, m'.table)
      else m' == m && (ok <==> StatOf(sv, ServicePathOr(name)) == Stat.Directory && Present(m.table, name))
    case StopService(name) =>
      && m' == m.(log := m'.log) && (ok <==> ServicePath(name).Some?)
      && if Present(m.table, name) then Hits(m.table, ServicePathOr(name), Term, m.log, m'.log) else m'.log == m.log
    case RestartService(name) =>
      && m' == m.(log := m'.log) && (ok <==> Present(m.table, name))
      && if ok then Hits(m.table, ServicePathOr(name), Usr1, m.log, m'.log) else m'.log == m.log
  }

  /** What the reply to a message tells is what happened. */
  ghost predicate Answers(message: string, sv: Tree, reply: string, m: Moment, m': Moment) {
    match Parse(message)
    case Refused(text) => reply == text && m' == m
    case Asked(r) => exists ok :: Serves(r, sv, ok, m, m') && reply == if ok then "OK\n" else FailureReply(r)
  }

  /** Every message was answered in its turn, from one moment to the next. */
  ghost predicate Transcript(messages: seq<string>, sv: Tree, replies: seq<string>, moments: seq<Moment>) {
    && |replies| == |messages| && |moments| == |messages| + 1
    && forall j :: 0 <= j < |messages| ==> Answers(messages[j], sv, replies[j], moments[j], moments[j + 1])
  }

  lemma TranscriptGrows(messages: seq<string>, sv: Tree, replies: seq<string>, moments: seq<Moment>,
                        message: string, reply: string, m: Moment, m': Moment)
    requires Transcript(messages, sv, replies, moments) && moments[|messages|] == m
    requires Answers(message, sv, reply, m, m')
    ensures Transcript(messages + [message], sv, replies + [reply], moments + [m'])
  {
    var ms, rs, mo := messages + [message], replies + [reply], moments + [m'];
    forall j | 0 <= j < |ms| ensures Answers(ms[j], sv, rs[j], mo[j], mo[j + 1]) {
      if j < |messages| {
        assert ms[j] == messages[j] && rs[j] == replies[j] && mo[j] == moments[j] && mo[j + 1] == moments[j + 1];
      }
    }
  }

  /** One turn of the main loop, from one moment to another. */
  datatype Tick = Tick(start: Moment, flags: Flags, replies: seq<string>, moments: seq<Moment>,
                       sigs: set<Signal>, end: Moment)

  /** The flags are processed, every message is answered in its turn, and PID 1 sleeps once. */
  ghost predicate TurnOf(t: Tick, messages: seq<string>, sv: Tree) {
    && Transcript(messages, sv, t.replies, t.moments)
    && Processes(t.flags, t.start, t.moments[0])
    && t.end == t.moments[|messages|].(log := t.end.log)
    && Sleeps(t.moments[|messages|].log, t.end.log, t.sigs)
  }

  /** Each turn of a run begins where the one before has ended, with the flags that its sleep has set. */
  ghost predicate TurnsOf(script: seq<(seq<string>, Tree)>, ticks: seq<Tick>, first: Moment, flags: Flags) {
    && |ticks| == |script|
    && forall i :: 0 <= i < |ticks| ==>
         && TurnOf(ticks[i], script[i].0, script[i].1)
         && ticks[i].start == EndOf(ticks[..i], first) && ticks[i].flags == FlagsAfter(ticks[..i], flags)
  }

  function EndOf(ticks: seq<Tick>, first: Moment): Moment {
    if ticks == [] then first else ticks[|ticks| - 1].end
  }

  function FlagsAfter(ticks: seq<Tick>, flags: Flags): Flags {
    if ticks == [] then flags else FlagsOf(ticks[|ticks| - 1].sigs)
  }

  lemma TurnsGoOn(script: seq<(seq<string>, Tree)>, ticks: seq<Tick>, first: Moment, flags: Flags,
                  next: (seq<string>, Tree), tick: Tick)
    requires TurnsOf(script, ticks, first, flags) && TurnOf(tick, next.0, next.1)
    requires tick.start == EndOf(ticks, first) && tick.flags == FlagsAfter(ticks, flags)
    ensures TurnsOf(script + [next], ticks + [tick], first, flags)
  {
    var ts, sc := ticks + [tick], script + [next];
    assert ts[..|ticks|] == ticks;
    forall i | 0 <= i < |ts|
      ensures TurnOf(ts[i], sc[i].0, sc[i].1)
      ensures ts[i].start == EndOf(ts[..i], first) && ts[i].flags == FlagsAfter(ts[..i], flags)
    {
      if i < |ticks| {
        assert ts[..i] == ticks[..i] && ts[i] == ticks[i] && sc[i] == script[i];
      }
    }
  }

  /** A service whose HSV was not forked by this process, such as one that MD1 started at boot, is unknown
      to it, even if it has adopted the HSV since: it is stopped with success and without
      any effect, it cannot be restarted, and starting it starts a second HSV. */
  lemma BootServiceIsUnknown(r: Request, sv: Tree, ok: bool, m: Moment, m': Moment)
    requires !r.SetMode? && ServicePath(r.name).Some? && Serves(r, sv, ok, m, m') && m.table == TableOf(m.log)
    requires forall i :: 0 <= i < |m.log| ==> !(m.log[i].Forked? && m.log[i].program == Hsv(ServicePathOr(r.name)))
    ensures r.StopService? ==> ok && m' == m
    ensures r.RestartService? ==> !ok && m' == m
    ensures r.StartService? && StatOf(sv, ServicePathOr(r.name)) == Stat.Directory && |m.table| < MAX_HSV ==>
              Launched(ServicePathOr(r.name), ok, m.log, m.table, m'.log, m'.table)
  {
    UnforkedIsUnlisted(m.log, ServicePathOr(r.name));
  }

  /** One more collected child. */
  function Hears(m: Moment, e: Event, log: seq<Event>): Moment
    requires e.Reaped?
  {
    var m' := m.(log := log, table := WithoutPid(m.table, e.pid));
    if m.mode == MODE_MD2 && e.pid == m.md2Pid then m'.(mode := MODE_NONE, md2Pid := -1) else m'
  }

  /** The reap loop has come from one moment to the other. */
  ghost predicate ReapedSo(m: Moment, m': Moment, acts: seq<Event>) {
    && Performs(m.log, m'.log, acts) && m' == AfterReaping(m, m'.log, acts)
    && (m.mode == MODE_MD2 ==> m.md2Pid > 0) && forall i :: 0 <= i < |acts| ==> acts[i].Reaped?
  }

  lemma ReapedOneMore(m: Moment, m': Moment, m'': Moment, acts: seq<Event>, e: Event)
    requires ReapedSo(m, m', acts) && Performs(m'.log, m''.log, [e]) && e.Reaped? && m'' == Hears(m', e, m''.log)
    requires e.pid > 1
    ensures ReapedSo(m, m'', acts + [e])
  {
    PerformsThen(m.log, m'.log, m''.log, acts, [e]);
    assert Front(acts + [e]) == acts && Last(acts + [e]) == e;
    LosesOneMore(acts + [e], m.md2Pid);
  }

  lemma ReapedLast(m: Moment, m': Moment, m'': Moment, acts: seq<Event>)
    requires ReapedSo(m, m', acts) && Performs(m'.log, m''.log, [Polled]) && m'' == m'.(log := m''.log)
    requires !HasZombie(Replay(m''.log))
    ensures Reaps(m, m'')
  {
    PerformsThen(m.log, m'.log, m''.log, acts, [Polled]);
    assert Front(acts + [Polled]) == acts && Last(acts + [Polled]) == Polled;
    LosesOneMore(acts + [Polled], m.md2Pid);
    assert ReapActs(acts + [Polled]);
  }

  // ---- What the texts and turns lead to ----

  lemma SetModeText(mode: nat, text: string)
    requires (mode == 0 && text == "setmode 0\n") || (mode == 1 && text == "setmode 1\n")
             || (mode == 2 && text == "setmode 2\n")
    ensures Parse(text) == Asked(SetMode(mode))
  {
    UnderstoodIffAskable(SetMode(mode));
    SetModePrinted(mode, text);
  }

  lemma SetModePrinted(mode: nat, text: string)
    requires mode <= 2 && |text| == 10 && text[..8] == "setmode " && text[8..] == ["0123456789"[mode]] + "\n"
    ensures Printed(SetMode(mode)) == text == Received(text)
  {
    assert Digits(mode) == ["0123456789"[mode]];
    assert text == text[..8] + text[8..];
  }

  /** In mode 2 the text "setmode 0" shuts the machine down. */
  lemma SetModeZero(sv: Tree, reply: string, m: Moment, m': Moment)
    requires Answers("setmode 0\n", sv, reply, m, m') && m.mode == 2
    ensures m'.mode == 0 && reply == "OK\n" && exists acts :: Performs(m.log, m'.log, acts) && HaltActs(acts, m.md2Pid)
  {
    SetModeText(0, "setmode 0\n");
  }

  /** Without a mode the text "setmode 1" boots it, which ends in mode 2 or again without a mode. */
  lemma SetModeOne(sv: Tree, reply: string, m: Moment, m': Moment)
    requires Answers("setmode 1\n", sv, reply, m, m') && m.mode == -1
    ensures m'.mode == (if m'.md2Pid > 0 then 2 else -1) && reply == "OK\n"
    ensures exists acts :: Performs(m.log, m'.log, acts) && BootActs(acts, m'.md2Pid)
  {
    SetModeText(1, "setmode 1\n");
  }

  /** The text "setmode 2" does nothing, and neither do the two others in any other mode. */
  lemma SetModeElse(mode: nat, text: string, sv: Tree, reply: string, m: Moment, m': Moment)
    requires (mode == 0 && text == "setmode 0\n" && m.mode != 2) || (mode == 1 && text == "setmode 1\n" && m.mode != -1)
             || (mode == 2 && text == "setmode 2\n")
    requires Answers(text, sv, reply, m, m')
    ensures m' == m && reply == "OK\n"
  {
    SetModeText(mode, text);
  }

  /** A SIGTERM that ends a sleep in mode 2 shuts the machine down before the next turn does anything else. */
  lemma SigtermShutsDown(script: seq<(seq<string>, Tree)>, ticks: seq<Tick>, first: Moment, flags: Flags, i: nat)
    requires TurnsOf(script, ticks, first, flags) && i + 1 < |ticks|
    requires Term in ticks[i].sigs && ticks[i].end.mode == 2
    ensures exists mid: Moment, acts :: Performs(ticks[i].end.log, mid.log, acts) && HaltActs(acts, ticks[i].end.md2Pid)
                                && mid.mode == 0 && HeedsChld(ticks[i + 1].flags, mid, ticks[i + 1].moments[0])
  {
    var t := ticks[i + 1];
    assert ticks[..i + 1][i] == ticks[i];
    assert t.start == ticks[i].end && t.flags == FlagsOf(ticks[i].sigs);
    var mid :| HeedsTerm(t.flags, t.start, mid) && HeedsChld(t.flags, mid, t.moments[0]);
    var acts :| Performs(t.start.log, mid.log, acts) && HaltActs(acts, t.start.md2Pid);
  }

  /** A turn that no flag has caused and in which no message arrives only sleeps. */
  lemma IdleTurnSleeps(t: Tick, sv: Tree)
    requires TurnOf(t, [], sv) && !t.flags.chld && !t.flags.term
    ensures t.end == t.start.(log := t.end.log) && Sleeps(t.start.log, t.end.log, t.sigs)
  {
  }

  class HInit {
    const host: Host
    const modes: ModeController
    const registry: HsvRegistry
    const onBoot: OnBootDirectory
    var sigchldPending: bool
    var sigtermPending: bool
    var sigintPending: bool

    /** The mode controller and the registry are exactly what the log says. */
    ghost predicate Agreed() reads this, host, modes, registry, registry.table {
      && modes.host == host && registry.host == host
      && modes.Settled() && registry.Valid() && registry.View() == TableOf(host.log)
    }

    /** What holds whenever PID 1 is about to process signals or to sleep. */
    ghost predicate Inv() reads this, host, modes, registry, registry.table {
      Agreed() && sigchldPending == ChldDue(host.log)
    }

    constructor (budget: nat)
      ensures Inv() && fresh(host) && fresh(modes) && fresh(registry) && fresh(registry.table) && fresh(onBoot)
      ensures modes.currentMode == MODE_NONE && exists sigs :: SetsUp(host.log, sigs) && FlagsNow() == FlagsOf(sigs)
    {
      var k := new Host(budget);
      var delivered := k.Deliver({Chld, Term, Int});
      ghost var l0 := k.log;
      k.Mask(SHIELD);
      Beginning(l0, k.log, delivered);
      host := k;
      modes := new ModeController(k);
      registry := new HsvRegistry(k);
      onBoot := new OnBootDirectory();
      sigchldPending, sigtermPending, sigintPending := Chld in delivered, Term in delivered, Int in delivered;
    }

    /** No flag is set. */
    ghost predicate Quiet() reads this {
      !sigchldPending && !sigtermPending && !sigintPending
    }

    method SignalHandler(sig: Signal)
      modifies this
      ensures sigchldPending == (old(sigchldPending) || sig == Chld)
      ensures sigtermPending == (old(sigtermPending) || sig == Term)
      ensures sigintPending == (old(sigintPending) || sig == Int)
    {
      match sig
      case Chld => sigchldPending := true;
      case Term => sigtermPending := true;
      case Int => sigintPending := true;
      case _ =>
    }

    /** sigsuspend: with nothing blocked some of the pending signals are delivered; then the mask is what
        it was. */
    static method Sleep(host: Host) returns (sigs: set<Signal>)
      requires host.Valid() && AtRest(PhaseOf(host.log)) && !ChldDue(host.log)
      modifies host
      ensures host.Valid() && sigs <= {Chld, Term, Int}
      ensures old(host.log) < host.log && Sleeps(old(host.log), host.log, sigs)
      ensures PhaseOf(host.log) == PhaseOf(old(host.log)) && TableOf(host.log) == TableOf(old(host.log))
      ensures ChldDue(host.log) == (Chld in sigs)
    {
      ghost var l0 := host.log;
      host.Mask({});
      ghost var l1 := host.log;
      sigs := host.Deliver({Chld, Term, Int});
      ghost var l2 := host.log;
      host.Mask(SHIELD);
      SleepingIs(l0, l1, l2, host.log, sigs);
    }

    /** PID 1 sleeps, and never on a set flag. Each delivered signal sets its flag and no other; nothing
        else happens. */
    method Suspend() returns (ghost sigs: set<Signal>)
      requires Inv() && Quiet()
      modifies this, host
      ensures Inv() && unchanged(modes) && unchanged(registry) && unchanged(registry.table)
      ensures sigs <= {Chld, Term, Int} && old(host.log) < host.log && Sleeps(old(host.log), host.log, sigs)
      ensures sigchldPending == (Chld in sigs) && sigtermPending == (Term in sigs) && sigintPending == (Int in sigs)
    {
      var delivered := Sleep(host);
      sigs := delivered;
      if Chld in delivered { SignalHandler(Chld); }
      if Term in delivered { SignalHandler(Term); }
      if Int in delivered { SignalHandler(Int); }
    }

    /** Tell both subsystems of one reaped child; it concerns at most one of them. */
    method Dispatch(pid: int, status: Status, ghost before: seq<Event>)
      requires modes.host == host && registry.host == host && registry.Valid() && host.Valid() && modes.Coherent()
      requires PhaseOf(before) == modes.Rest() && TableOf(before) == registry.View()
      requires host.log != [] && Does(before, host.log, Last(host.log))
      requires Last(host.log).Reaped? && Last(host.log).pid == pid > 1
      modifies modes, registry`count, registry.table
      ensures Agreed() && Performs(before, host.log, [Last(host.log)])
      ensures ChldDue(host.log) == ChldDue(before)
      ensures Now() == Hears(old(Now()), Last(host.log), host.log)
    {
      ReapMoves(before, host.log, Last(host.log));
      modes.ChildExit(pid, status);
      registry.ChildExit(pid, status);
    }

    /** The reap loop: it only collects children, and ends with a poll that found no zombie. */
    method ReapAll()
      requires Agreed()
      modifies host, modes, registry`count, registry.table
      ensures Agreed() && !ChldDue(host.log) && Reaps(old(Now()), Now())
    {
      ghost var m, acts: seq<Event> := Now(), [];
      var more := true;
      while more
        invariant Agreed() && if more then ReapedSo(m, Now(), acts) else Reaps(m, Now()) && !ChldDue(host.log)
        decreases more, host.Load()
      {
        more, acts := ReapOne(m, acts);
      }
    }

    /** One round of the reap loop. */
    method ReapOne(ghost m: Moment, ghost acts: seq<Event>) returns (more: bool, ghost acts': seq<Event>)
      requires Agreed() && ReapedSo(m, Now(), acts)
      modifies host, modes, registry`count, registry.table
      ensures Agreed()
      ensures if more then ReapedSo(m, Now(), acts') && host.Load() < old(host.Load())
              else Reaps(m, Now()) && !ChldDue(host.log)
    {
      ghost var m' := Now();
      var pid, status := Process.Reap(host);
      acts' := acts + [Last(host.log)];
      if pid <= 0 {
        DoesMoves(m'.log, host.log, Polled);
        DoesPerforms(m'.log, host.log, Polled);
        ReapedLast(m, m', Now(), acts);
        return false, acts';
      }
      ChildrenArePositive(Front(host.log), pid);
      ghost var e := Last(host.log);
      Dispatch(pid, status, m'.log);
      ReapedOneMore(m, m', Now(), acts, e);
      return true, acts';
    }

    /** One pass over the pending flags: SIGTERM first, then SIGINT, then the children. An MD2
        that died in the same wake-up as SIGTERM is collected by the mode change, not by the
        reap loop. SIGTERM leads to MD0 if and only if the machine was in MD2 or MD0. */
    method SignalProcess()
      requires Inv()
      modifies this, host, modes, registry`count, registry.table
      ensures Inv() && Quiet() && Processes(old(FlagsNow()), old(Now()), Now())
      ensures old(sigtermPending) ==> (modes.currentMode == MODE_MD0 <==> old(modes.currentMode) != MODE_NONE)
    {
      if sigtermPending {
        sigtermPending := false;
        ghost var acts := modes.Start(MODE_MD0);
      }
      ghost var mid := Now();
      assert HeedsTerm(old(FlagsNow()), old(Now()), mid);
      if sigintPending {
        sigintPending := false;
      }
      if sigchldPending {
        sigchldPending := false;
        ReapAll();
      }
      assert HeedsChld(old(FlagsNow()), mid, Now());
    }

    ghost function FlagsNow(): Flags reads this {
      Flags(sigchldPending, sigtermPending, sigintPending)
    }

    ghost function Now(): Moment
      reads this, host, modes, registry, registry.table, onBoot
      requires registry.count <= registry.table.Length
    {
      Moment(host.log, modes.currentMode, modes.md2Pid, registry.View(), onBoot.nodes)
    }

    /** One request that the feed has understood. */
    method Serve(r: Request, sv: Tree) returns (ok: bool)
      requires Inv()
      modifies host, modes, registry`count, registry.table, onBoot
      ensures Inv() && old(host.log) <= host.log && Serves(r, sv, ok, old(Now()), Now())
      ensures old(modes.currentMode) == MODE_MD0 ==> modes.currentMode == MODE_MD0
    {
      match r
      case SetMode(mode) =>
        ghost var acts := modes.Start(mode);
        ok := true;
      case EnableService(name) =>
        ok := onBoot.Enable(name, sv);
      case DisableService(name) =>
        ok := onBoot.Disable(name);
      case StartService(name) =>
        ok := StartService(name, sv);
      case StopService(name) =>
        ok := registry.StopService(name);
      case RestartService(name) =>
        ok := registry.RestartService(name);
    }

    method StartService(name: string, sv: Tree) returns (ok: bool)
      requires Inv()
      modifies host, registry`count, registry.table
      ensures Inv() && old(host.log) <= host.log && Serves(Request.StartService(name), sv, ok, old(Now()), Now())
    {
      ok := registry.StartService(name, StatOf(sv, ServicePathOr(name)));
    }

    /** One received message. What is refused does nothing; everything else is served, and the reply says
        whether that succeeded. */
    method Command(message: string, sv: Tree) returns (reply: string)
      requires Inv()
      modifies host, modes, registry`count, registry.table, onBoot
      ensures Inv() && old(host.log) <= host.log
      ensures old(modes.currentMode) == MODE_MD0 ==> modes.currentMode == MODE_MD0
      ensures Answers(message, sv, reply, old(Now()), Now())
    {
      ghost var before := Now();
      var parsed := Understand(message);
      match parsed
      case Refused(text) =>
        return text;
      case Asked(r) =>
        var ok := Serve(r, sv);
        assert Serves(r, sv, ok, before, Now());
        return if ok then "OK\n" else FailureReply(r);
    }

    /** One turn of the main loop: process the flags, answer every message in its turn, sleep until a
        signal. A SIGTERM pending in MD2 has led to MD0 by the time of the first message. */
    method Turn(messages: seq<string>, sv: Tree) returns (replies: seq<string>, ghost tick: Tick)
      requires Inv()
      modifies this, host, modes, registry`count, registry.table, onBoot
      ensures Inv() && TurnOf(tick, messages, sv) && tick.replies == replies
      ensures tick.start == old(Now()) && tick.flags == old(FlagsNow())
      ensures tick.end == Now() && FlagsOf(tick.sigs) == FlagsNow()
      ensures old(modes.currentMode) == MODE_MD0 ==> modes.currentMode == MODE_MD0
      ensures old(modes.currentMode) == MODE_MD2 && old(sigtermPending) ==> modes.currentMode == MODE_MD0
    {
      ghost var start, flags := Now(), FlagsNow();
      SignalProcess();
      ghost var moments;
      replies, moments := Reply(messages, sv);
      ghost var sigs := Suspend();
      tick := Tick(start, flags, replies, moments, sigs, Now());
    }

    method Reply(messages: seq<string>, sv: Tree) returns (replies: seq<string>, ghost moments: seq<Moment>)
      requires Inv()
      modifies host, modes, registry`count, registry.table, onBoot
      ensures Inv() && old(host.log) <= host.log && Transcript(messages, sv, replies, moments)
      ensures moments[0] == old(Now()) && moments[|messages|] == Now()
      ensures old(modes.currentMode) == MODE_MD0 ==> modes.currentMode == MODE_MD0
    {
      ghost var start := Now();
      replies, moments := [], [start];
      for j := 0 to |messages|
        invariant Inv() && old(host.log) <= host.log
        invariant Transcript(messages[..j], sv, replies, moments) && moments[0] == start && moments[j] == Now()
        invariant old(modes.currentMode) == MODE_MD0 ==> modes.currentMode == MODE_MD0
      {
        assert messages[..j + 1] == messages[..j] + [messages[j]];
        replies, moments := ReplyNext(messages[j], messages[..j], sv, replies, moments);
      }
      assert messages[..|messages|] == messages;
    }

    method ReplyNext(message: string, ghost done: seq<string>, sv: Tree,
                     replies: seq<string>, ghost moments: seq<Moment>)
      returns (replies': seq<string>, ghost moments': seq<Moment>)
      requires Inv() && Transcript(done, sv, replies, moments) && moments[|done|] == Now()
      modifies host, modes, registry`count, registry.table, onBoot
      ensures Inv() && old(host.log) <= host.log
      ensures Transcript(done + [message], sv, replies', moments')
      ensures moments' == moments + [Now()]
      ensures old(modes.currentMode) == MODE_MD0 ==> modes.currentMode == MODE_MD0
    {
      ghost var m := Now();
      var reply := Command(message, sv);
      ghost var m' := Now();
      TranscriptGrows(done, sv, replies, moments, message, reply, m, m');
      replies', moments' := replies + [reply], moments + [m'];
    }

    /** Any finite run of PID 1: start-up, which is exactly one attempt to boot, and then every turn of the
        script, with any messages, any service tree and any signals, and nothing else. */
    method Run(script: seq<(seq<string>, Tree)>)
      returns (replies: seq<seq<string>>, ghost booted: Moment, ghost ticks: seq<Tick>)
      requires Inv() && modes.currentMode == MODE_NONE
      modifies this, host, modes, registry`count, registry.table, onBoot
      ensures Inv() && Changes(MODE_MD1, old(Now()), booted)
      ensures TurnsOf(script, ticks, booted, old(FlagsNow())) && Now() == EndOf(ticks, booted)
      ensures |replies| == |script| && forall i :: 0 <= i < |script| ==> replies[i] == ticks[i].replies
    {
      ghost var flags := FlagsNow();
      BootUp();
      booted := Now();
      replies, ticks := Loop(script, booted, flags);
    }

    /** mode_init. */
    method BootUp()
      requires Inv() && modes.currentMode == MODE_NONE
      modifies host, modes
      ensures Inv() && Changes(MODE_MD1, old(Now()), Now())
    {
      ghost var acts := modes.Start(MODE_MD1);
    }

    /** The main loop. */
    method Loop(script: seq<(seq<string>, Tree)>, ghost booted: Moment, ghost flags: Flags)
      returns (replies: seq<seq<string>>, ghost ticks: seq<Tick>)
      requires Inv() && booted == Now() && flags == FlagsNow()
      modifies this, host, modes, registry`count, registry.table, onBoot
      ensures Inv() && TurnsOf(script, ticks, booted, flags) && Now() == EndOf(ticks, booted)
      ensures |replies| == |script| && forall i :: 0 <= i < |script| ==> replies[i] == ticks[i].replies
    {
      ghost var done: seq<(seq<string>, Tree)> := [];
      replies, ticks := [], [];
      for i := 0 to |script|
        invariant Inv() && done == script[..i] && Ran(done, replies, ticks, booted, flags)
      {
        replies, ticks := TurnNext(script[i], done, replies, booted, ticks, flags);
        TakeNext(script, i);
        done := done + [script[i]];
      }
      assert done == script;
    }

    /** The loop has come this far with these turns. */
    ghost predicate Ran(done: seq<(seq<string>, Tree)>, replies: seq<seq<string>>, ticks: seq<Tick>,
                        booted: Moment, flags: Flags)
      reads this, host, modes, registry, registry.table, onBoot
    {
      && registry.count <= registry.table.Length
      && TurnsOf(done, ticks, booted, flags) && Now() == EndOf(ticks, booted) && FlagsNow() == FlagsAfter(ticks, flags)
      && |replies| == |ticks| && forall k :: 0 <= k < |ticks| ==> replies[k] == ticks[k].replies
    }

    method TurnNext(next: (seq<string>, Tree), ghost done: seq<(seq<string>, Tree)>, replies: seq<seq<string>>,
                    ghost booted: Moment, ghost ticks: seq<Tick>, ghost flags: Flags)
      returns (replies': seq<seq<string>>, ghost ticks': seq<Tick>)
      requires Inv() && Ran(done, replies, ticks, booted, flags)
      modifies this, host, modes, registry`count, registry.table, onBoot
      ensures Inv() && Ran(done + [next], replies', ticks', booted, flags)
    {
      ghost var tick;
      var reply: seq<string>;
      reply, tick := Turn(next.0, next.1);
      TurnsGoOn(done, ticks, booted, flags, next, tick);
      replies', ticks' := replies + [reply], ticks + [tick];
    }

    /** What the invariant means. The positive MD2 pid and the pids of the table are pairwise
        distinct unreaped children, forked for exactly what the variables say, and no other
        child but adopted orphans exists; the branch of ChildExit for a requested exit is
        unreachable; every zombie has a wake-up ahead of it. */
    lemma InvMeans()
      requires Inv()
      ensures modes.currentMode == MODE_MD2 <==> modes.md2Pid > 0
      ensures !modes.md2ShutdownRequested && modes.currentMode != MODE_MD1
      ensures modes.md2Pid > 0 ==> Runs(host.w, modes.md2Pid, Md2) && !HasPid(registry.View(), modes.md2Pid)
      ensures forall e :: e in registry.View() ==> Runs(host.w, e.pid, Hsv(e.service))
      ensures DistinctPids(registry.View()) && DistinctServices(registry.View()) && |registry.View()| <= MAX_HSV
      ensures forall pid :: pid in host.w.children ==>
                || host.w.children[pid].program == Orphan
                || (pid == modes.md2Pid && host.w.children[pid].program == Md2)
                || HasPid(registry.View(), pid)
      ensures HasZombie(host.w) ==> sigchldPending || Chld in host.w.pending
      ensures forall i :: 0 <= i < |host.log| ==> !host.log[i].Strayed?
    {
      Ownership(host.log);
      NoLostChild(host.log);
      var t := registry.View();
      assert forall i :: 0 <= i < |t| ==> t[i] in t;
      forall pid | pid in host.w.children
        ensures host.w.children[pid].program == Orphan
             || (pid == modes.md2Pid && host.w.children[pid].program == Md2)
             || HasPid(t, pid)
      {
        assert Explained(modes.Rest(), t, pid, host.w.children[pid].program);
        if host.w.children[pid].program.Hsv? {
          var i :| 0 <= i < |t| && t[i] == Entry(pid, host.w.children[pid].program.service);
          assert t[i].pid == pid;
        }
      }
      forall i | 0 <= i < |host.log| ensures !host.log[i].Strayed? {
        KillsHitOwnChildren(host.log, i);
      }
    }
  }
}
