/** The part of a POSIX kernel that one parent process can see: its unreaped children,
    its pending signals, and a log of everything that happened.

    The signal mask is part of the process and passes through fork and exec to its children
    (section 2.4 of the XSH volume of IEEE Std 1003.1-2008, and fork and exec there); the log of a
    process that was executed by another one begins with the mask it was given.

    A process identifier may be used again once the child that had it was reaped (section
    4.13 of the XBD volume of IEEE Std 1003.1-2008), and a second instance of a pending signal
    is lost (section 2.4 of the XSH volume). Every child also gets a birth number that
    is never used again, so that two children with one identifier can be told apart. */
module Kernel {
  datatype Status = Exited(code: nat) | Signaled(sig: nat)

  datatype Signal = Chld | Term | Int | Usr1 | Kill

  /** What a child was forked to execute; Orphan is a child this process did not fork. */
  datatype Program = Md0 | Md1 | Md2 | Hsv(service: string) | RunScript | StopScript | FinishScript | Orphan

  datatype Life = Running | Zombie(status: Status)

  datatype Proc = Proc(birth: nat, program: Program, life: Life)

  datatype Event =
    // What the rest of the system does.
    | Adopted(pid: int, life: Life)
    | Died(pid: int, status: Status)
    | Raised(sig: Signal)
    // What the process itself does.
    | Masked(blocked: set<Signal>)                           // the signals blocked from now on
    | Delivered(sigs: set<Signal>)
    | Forked(pid: int, program: Program)
    | ForkFailed(program: Program)
    | Killed(pid: int, program: Program, sig: Signal)        // kill on an unreaped child
    | Strayed(pid: int, sig: Signal)                         // kill on any other process
    | Waited(pid: int, proc: Proc, cleared: bool)            // collected by waitpid(pid)
    | Reaped(pid: int, proc: Proc, cleared: bool)            // collected by waitpid(-1)
    | Polled                                                 // waitpid(-1) found nothing
    | Unready(pid: int, interrupted: bool)                   // waitpid(pid, WNOHANG) found nothing
    | Slept(nanoseconds: nat)
    | Accessed(program: Program, found: bool)
    | RestartTaken

  datatype World = World(children: map<int, Proc>, births: nat, pending: set<Signal>, blocked: set<Signal>)

  ghost predicate HasZombie(w: World) {
    exists p :: p in w.children && w.children[p].life.Zombie?
  }

  /** Which events the kernel can produce next. Collecting a child may clear a pending
      SIGCHLD, but only when no other child is waiting to be collected. */
  ghost predicate Enabled(w: World, e: Event) {
    match e
    case Forked(pid, program) => pid > 1 && pid !in w.children && program != Orphan
    case Adopted(pid, _) => pid > 1 && pid !in w.children
    case Died(pid, _) => pid in w.children && w.children[pid].life.Running?
    case Raised(sig) => sig != Kill
    case Delivered(sigs) => sigs != {} && sigs <= w.pending && sigs !! w.blocked
    case Killed(pid, program, _) => pid in w.children && w.children[pid].program == program
    case Strayed(pid, _) => pid !in w.children
    case Waited(pid, proc, cleared) => Collectable(w, pid, proc, cleared)
    case Reaped(pid, proc, cleared) => Collectable(w, pid, proc, cleared)
    case Polled => !HasZombie(w)
    case Unready(pid, _) => pid in w.children
    case _ => true
  }

  ghost predicate Collectable(w: World, pid: int, proc: Proc, cleared: bool) {
    && pid in w.children && w.children[pid] == proc && proc.life.Zombie?
    && (cleared ==> !HasZombie(w.(children := w.children - {pid})))
  }

  function Apply(w: World, e: Event): World {
    match e
    case Forked(pid, program) => Born(w, pid, Proc(w.births, program, Running))
    case Adopted(pid, life) =>
      var w' := Born(w, pid, Proc(w.births, Orphan, life));
      if life.Zombie? then w'.(pending := w.pending + {Chld}) else w'
    case Died(pid, status) =>
      if pid !in w.children then w
      else w.(children := w.children[pid := w.children[pid].(life := Zombie(status))],
              pending := w.pending + {Chld})
    case Raised(sig) => w.(pending := w.pending + {sig})
    case Masked(blocked) => w.(blocked := blocked)
    case Delivered(sigs) => w.(pending := w.pending - sigs)
    case Waited(pid, _, cleared) => Gone(w, pid, cleared)
    case Reaped(pid, _, cleared) => Gone(w, pid, cleared)
    case _ => w
  }

  function Born(w: World, pid: int, proc: Proc): World {
    w.(children := w.children[pid := proc], births := w.births + 1)
  }

  function Gone(w: World, pid: int, cleared: bool): World {
    w.(children := w.children - {pid}, pending := if cleared then w.pending - {Chld} else w.pending)
  }

  function Front(log: seq<Event>): seq<Event>
    requires log != []
  {
    log[..|log| - 1]
  }

  function Last(log: seq<Event>): Event
    requires log != []
  {
    log[|log| - 1]
  }

  function Replay(log: seq<Event>): World {
    if log == [] then World(map[], 0, {}, {}) else Apply(Replay(Front(log)), Last(log))
  }

  /** The logs the kernel allows, whatever the process and its environment do. */
  ghost predicate Legal(log: seq<Event>) {
    log != [] ==> Legal(Front(log)) && Enabled(Replay(Front(log)), Last(log))
  }

  lemma {:induction false} LegalAt(log: seq<Event>, i: nat)
    requires Legal(log) && i < |log|
    ensures Legal(log[..i]) && Enabled(Replay(log[..i]), log[i])
    decreases |log|
  {
    if i < |log| - 1 {
      LegalAt(Front(log), i);
      assert Front(log)[..i] == log[..i];
    }
  }

  predicate AttemptOf(e: Event, program: Program) {
    (e.Forked? || e.ForkFailed?) && e.program == program
  }

  predicate Ambient(e: Event) {
    e.Adopted? || e.Died? || e.Raised?
  }

  /** Only the environment acted between the two logs. */
  ghost predicate Drifts(before: seq<Event>, after: seq<Event>) {
    before <= after && forall i :: |before| <= i < |after| ==> Ambient(after[i])
  }

  /** The process did exactly e, at a moment of the environment's choosing. */
  ghost predicate Does(before: seq<Event>, after: seq<Event>, e: Event) {
    after != [] && Drifts(before, Front(after)) && Last(after) == e
  }

  /** As Does, for a direct wait that collected the given child with this status. */
  ghost predicate Collects(before: seq<Event>, after: seq<Event>, pid: int, program: Program, status: Status) {
    && after != [] && Does(before, after, Last(after))
    && Last(after).Waited? && Last(after).pid == pid
    && Last(after).proc.program == program && Last(after).proc.life == Zombie(status)
  }

  // ---- What every legal log has, whoever wrote it ----

  /** The reaper owes a poll: SIGCHLD was delivered after the last poll that found nothing. */
  predicate ChldDue(log: seq<Event>) {
    log != [] && DebtAfter(ChldDue(Front(log)), Last(log))
  }

  predicate DebtAfter(due: bool, e: Event) {
    match e
    case Delivered(sigs) => Chld in sigs || due
    case Polled => false
    case _ => due
  }

  /** No lost child: an uncollected zombie always has a SIGCHLD behind it that is still
      pending in the kernel or was delivered and not yet answered by a full reap. */
  lemma {:induction false} NoLostChild(log: seq<Event>)
    requires Legal(log)
    ensures HasZombie(Replay(log)) ==> ChldDue(log) || Chld in Replay(log).pending
  {
    if log != [] {
      NoLostChild(Front(log));
      var w, w' := Replay(Front(log)), Replay(log);
      if HasZombie(w') && !HasZombie(w) {
        var p :| p in w'.children && w'.children[p].life.Zombie?;
        assert p in w.children ==> w.children[p].life.Running?;
      } else if HasZombie(w') {
        match Last(log)
        case Waited(pid, _, cleared) => assert cleared ==> w'.children == w.(children := w.children - {pid}).children;
        case Reaped(pid, _, cleared) => assert cleared ==> w'.children == w.(children := w.children - {pid}).children;
        case _ =>
      }
    }
  }

  /** A blocked signal is not delivered until the process itself unblocks it, however often it is
      sent. */
  lemma {:induction false} BlockedStaysPending(log: seq<Event>, i: nat, sig: Signal)
    requires Legal(log) && i <= |log| && sig in Replay(log[..i]).blocked
    requires forall k :: i <= k < |log| && log[k].Masked? ==> sig in log[k].blocked
    ensures sig in Replay(log).blocked
    ensures forall k :: i <= k < |log| && log[k].Delivered? ==> sig !in log[k].sigs
    ensures sig != Chld && sig in Replay(log[..i]).pending ==> sig in Replay(log).pending
    decreases |log|
  {
    if i < |log| {
      assert Front(log)[..i] == log[..i];
      BlockedStaysPending(Front(log), i, sig);
    } else {
      assert log[..i] == log;
    }
  }

  function Consumes(e: Event, birth: nat): nat {
    if (e.Waited? || e.Reaped?) && e.proc.birth == birth then 1 else 0
  }

  function Consumptions(log: seq<Event>, birth: nat): nat {
    if log == [] then 0 else Consumptions(Front(log), birth) + Consumes(Last(log), birth)
  }

  ghost predicate Unreaped(w: World, birth: nat) {
    exists p :: p in w.children && w.children[p].birth == birth
  }

  ghost predicate BirthsDiffer(w: World) {
    && (forall p :: p in w.children ==> w.children[p].birth < w.births)
    && (forall p, q :: p in w.children && q in w.children && p != q ==> w.children[p].birth != w.children[q].birth)
  }

  /** Birth numbers identify children, also when identifiers are used again. */
  lemma {:induction false} BirthsAreUnique(log: seq<Event>)
    requires Legal(log)
    ensures BirthsDiffer(Replay(log))
  {
    if log != [] {
      BirthsAreUnique(Front(log));
    }
  }

  /** How often a child must have been collected. */
  ghost function Owed(w: World, birth: nat): nat {
    if birth < w.births && !Unreaped(w, birth) then 1 else 0
  }

  lemma OneMoreEvent(w: World, e: Event, birth: nat)
    requires Enabled(w, e) && BirthsDiffer(w)
    ensures Owed(Apply(w, e), birth) == Owed(w, birth) + Consumes(e, birth)
  {
    var w' := Apply(w, e);
    if e.Waited? || e.Reaped? {
      CollectingEndsOneBirth(w, w', e.pid, birth);
    } else if e.Forked? || e.Adopted? {
      BirthAddsOne(w, w', e.pid, birth);
    } else if e.Died? {
      SameBirths(w, w', birth);
    }
  }

  /** Exactly-once consumption: every child ever forked or adopted is either still unreaped
      and was never collected, or was collected once, by a direct wait or by the global reaper. */
  lemma {:induction false} ConsumedExactlyOnce(log: seq<Event>, birth: nat)
    requires Legal(log)
    ensures Consumptions(log, birth)
         == if birth < Replay(log).births && !Unreaped(Replay(log), birth) then 1 else 0
  {
    if log == [] {
      assert Replay(log).births == 0;
    } else {
      ConsumedExactlyOnce(Front(log), birth);
      BirthsAreUnique(Front(log));
      OneMoreEvent(Replay(Front(log)), Last(log), birth);
    }
  }

  lemma SameBirths(w: World, w': World, birth: nat)
    requires w.children.Keys == w'.children.Keys
    requires forall p :: p in w.children ==> w.children[p].birth == w'.children[p].birth
    ensures Unreaped(w, birth) <==> Unreaped(w', birth)
  {
    if p :| p in w.children && w.children[p].birth == birth {
      assert w'.children[p].birth == birth;
    }
  }

  lemma BirthAddsOne(w: World, w': World, pid: int, birth: nat)
    requires pid !in w.children && pid in w'.children && w'.children[pid].birth == w.births
    requires w'.children == w.children[pid := w'.children[pid]]
    ensures Unreaped(w', birth) <==> birth == w.births || Unreaped(w, birth)
  {
    if p :| p in w.children && w.children[p].birth == birth {
      assert w'.children[p].birth == birth;
    }
  }

  lemma CollectingEndsOneBirth(w: World, w': World, pid: int, birth: nat)
    requires BirthsDiffer(w) && pid in w.children && w'.children == w.children - {pid}
    ensures Unreaped(w', birth) <==> Unreaped(w, birth) && birth != w.children[pid].birth
  {
    if p :| p in w.children && w.children[p].birth == birth {
      assert p != pid ==> p in w'.children;
    }
  }

  /** Children stay what they are until they are collected. */
  ghost predicate Persists(w: World, w': World) {
    forall p :: p in w.children ==> p in w'.children && w'.children[p].program == w.children[p].program
  }

  lemma {:induction false} DriftPersists(l0: seq<Event>, l1: seq<Event>)
    requires Drifts(l0, l1) && Legal(l1)
    ensures Persists(Replay(l0), Replay(l1))
    decreases |l1|
  {
    if |l0| < |l1| {
      assert Ambient(Last(l1));
      DriftPersists(l0, Front(l1));
    } else {
      assert l0 == l1;
    }
  }

  /** Only collecting a child ends it. */
  lemma DoesPersists(l0: seq<Event>, l1: seq<Event>, e: Event)
    requires Does(l0, l1, e) && Legal(l1)
    ensures forall p :: p in Replay(l0).children ==>
              || ((e.Waited? || e.Reaped?) && p == e.pid)
              || (p in Replay(l1).children && Replay(l1).children[p].program == Replay(l0).children[p].program)
  {
    DriftPersists(l0, Front(l1));
  }

  // ---- The system calls ----

  datatype Errno = EINTR | ECHILD

  datatype Reply = Got(pid: int, status: Status) | Nothing | Failed(errno: Errno)

  /** One process's view of the kernel. Every call first lets the environment act. The budget
      bounds how many orphans and interruptions the environment still has for this process:
      it is arbitrary, and makes each run finite. */
  class Host {
    var w: World
    ghost var log: seq<Event>
    var budget: nat

    ghost predicate Valid() reads this {
      Legal(log) && w == Replay(log)
    }

    ghost function Load(): nat reads this {
      budget + |w.children.Keys|
    }

    constructor (budget: nat)
      ensures Valid() && log == [] && w == Replay([])
    {
      w := World(map[], 0, {}, {});
      log := [];
      this.budget := budget;
    }

    method Record(e: Event)
      requires Valid() && Enabled(w, e)
      modifies this`w, this`log
      ensures Valid() && log == old(log) + [e] && w == Apply(old(w), e)
    {
      ghost var next := log + [e];
      assert Front(next) == log && Last(next) == e;
      w := Apply(w, e);
      log := next;
    }

    method Die(pid: int, status: Status)
      requires Valid() && pid in w.children && w.children[pid].life.Running?
      modifies this
      ensures Valid() && Drifts(old(log), log) && Persists(old(w), w)
      ensures Load() == old(Load()) && budget == old(budget)
    {
      ghost var keys := w.children.Keys;
      Record(Died(pid, status));
      assert w.children.Keys == keys;
    }

    method Adopt(pid: int, life: Life)
      requires Valid() && pid > 1 && pid !in w.children && budget > 0
      modifies this
      ensures Valid() && Drifts(old(log), log) && Persists(old(w), w)
      ensures Load() == old(Load()) && budget == old(budget) - 1
    {
      ghost var keys := w.children.Keys;
      Record(Adopted(pid, life));
      budget := budget - 1;
      assert w.children.Keys == keys + {pid};
    }

    method Raise(sig: Signal)
      requires Valid() && sig != Kill
      modifies this
      ensures Valid() && Drifts(old(log), log) && Persists(old(w), w)
      ensures Load() == old(Load()) && budget == old(budget)
    {
      Record(Raised(sig));
    }

    /** One death, adoption or signal, or nothing. */
    method EnvironmentStep()
      requires Valid()
      modifies this
      ensures Valid() && Drifts(old(log), log) && Persists(old(w), w)
      ensures Load() <= old(Load()) && budget <= old(budget)
    {
      var pid: int, status: Status, life: Life, sig: Signal := *, *, *, *;
      if pid in w.children && w.children[pid].life.Running? {
        Die(pid, status);
      } else if pid > 1 && pid !in w.children && budget > 0 {
        Adopt(pid, life);
      } else if sig != Kill {
        Raise(sig);
      }
    }

    /** Any number of deaths, adoptions and signals, in any order. */
    method Environment()
      requires Valid()
      modifies this
      ensures Valid() && Drifts(old(log), log) && Persists(old(w), w)
      ensures Load() <= old(Load()) && budget <= old(budget)
    {
      var steps: int := *;
      while steps > 0
        invariant Valid() && Drifts(old(log), log) && Persists(old(w), w)
        invariant Load() <= old(Load()) && budget <= old(budget)
      {
        EnvironmentStep();
        steps := steps - 1;
      }
    }

    method Fork(program: Program) returns (pid: int)
      requires Valid() && program != Orphan
      modifies this
      ensures Valid() && budget <= old(budget)
      ensures pid == -1 || (pid > 1 && pid !in old(w.children))
      ensures Does(old(log), log, if pid == -1 then ForkFailed(program) else Forked(pid, program))
    {
      Environment();
      pid := *;
      if pid > 1 && pid !in w.children {
        Record(Forked(pid, program));
      } else {
        Record(ForkFailed(program));
        pid := -1;
      }
    }

    /** An unreaped child can always be signalled, also when it is a zombie. */
    method Signal(pid: int, sig: Signal) returns (ok: bool)
      requires Valid()
      modifies this
      ensures Valid() && budget <= old(budget)
      ensures pid in old(w.children) ==> ok && Does(old(log), log, Killed(pid, old(w.children[pid].program), sig))
    {
      Environment();
      if pid in w.children {
        Record(Killed(pid, w.children[pid].program, sig));
        ok := true;
      } else {
        Record(Strayed(pid, sig));
        ok := *;
      }
    }

    method Collect(pid: int, direct: bool)
      requires Valid() && pid in w.children && w.children[pid].life.Zombie?
      modifies this
      ensures Valid() && budget == old(budget) && Load() < old(Load())
      ensures log != [] && log == old(log) + [Last(log)]
      ensures Last(log).Waited? || Last(log).Reaped?
      ensures Last(log).Waited? == direct
      ensures Last(log).pid == pid && Last(log).proc == old(w.children[pid])
    {
      var cleared: bool := *;
      var left := w.children - {pid};
      if cleared && !exists p :: p in left && left[p].life.Zombie? {
        assert !HasZombie(w.(children := left));
      } else {
        cleared := false;
      }
      ghost var keys := w.children.Keys;
      Record(if direct then Waited(pid, w.children[pid], cleared) else Reaped(pid, w.children[pid], cleared));
      assert w.children.Keys == keys - {pid};
    }

    /** waitpid(pid, 0). That a blocking wait ends, by the child's death or an interruption,
        is an assumption about the environment. */
    method WaitChild(pid: int) returns (r: Reply)
      requires Valid()
      modifies this
      ensures Valid() && budget <= old(budget)
      ensures r.Failed? && r.errno.EINTR? ==> Drifts(old(log), log) && Persists(old(w), w) && budget < old(budget)
      ensures pid in old(w.children) && r.Failed? ==> r.errno.EINTR?
      ensures !r.Nothing?
      ensures pid in old(w.children) && r.Got? ==>
                r.pid == pid && Collects(old(log), log, pid, old(w.children[pid].program), r.status)
    {
      Environment();
      var interrupted: bool, status: Status := *, *;
      if interrupted && budget > 0 {
        budget := budget - 1;
        return Failed(EINTR);
      }
      if pid !in w.children {
        return Failed(ECHILD);
      }
      if w.children[pid].life.Running? {
        Record(Died(pid, status));
      }
      r := Got(pid, w.children[pid].life.status);
      Collect(pid, true);
      assert Front(log) + [Last(log)] == log;
    }

    /** waitpid(pid, WNOHANG). */
    method PollChild(pid: int) returns (r: Reply)
      requires Valid()
      modifies this
      ensures Valid() && budget <= old(budget)
      ensures pid in old(w.children) ==>
                match r
                case Got(p, status) => p == pid && Collects(old(log), log, pid, old(w.children[pid].program), status)
                case Nothing => Does(old(log), log, Unready(pid, false))
                case Failed(errno) => errno.EINTR? && Does(old(log), log, Unready(pid, true)) && budget < old(budget)
    {
      Environment();
      var interrupted: bool := *;
      if pid !in w.children {
        return Failed(ECHILD);
      }
      if interrupted && budget > 0 {
        budget := budget - 1;
        Record(Unready(pid, true));
        return Failed(EINTR);
      }
      if w.children[pid].life.Running? {
        Record(Unready(pid, false));
        return Nothing;
      }
      r := Got(pid, w.children[pid].life.status);
      Collect(pid, true);
      assert Front(log) + [Last(log)] == log;
    }

    /** waitpid(-1, WNOHANG). */
    method PollAny() returns (r: Reply)
      requires Valid()
      modifies this
      ensures Valid() && budget <= old(budget) && Load() <= old(Load())
      ensures match r
              case Got(pid, status) =>
                && log != [] && Does(old(log), log, Last(log)) && Last(log).Reaped?
                && Last(log).pid == pid > 1 && Last(log).proc.life == Zombie(status) && Load() < old(Load())
              case Failed(EINTR) => Drifts(old(log), log) && budget < old(budget) && Load() < old(Load())
              case _ => Does(old(log), log, Polled)
    {
      Environment();
      var interrupted: bool := *;
      if interrupted && budget > 0 {
        budget := budget - 1;
        return Failed(EINTR);
      }
      if pid :| pid in w.children && w.children[pid].life.Zombie? {
        ChildrenArePositive(log, pid);
        r := Got(pid, w.children[pid].life.status);
        Collect(pid, false);
        assert Front(log) + [Last(log)] == log;
      } else {
        r := if |w.children| == 0 then Failed(ECHILD) else Nothing;
        Record(Polled);
      }
    }

    /** nanosleep: the time slept and the time reported as remaining make up the request. */
    method Nanosleep(seconds: nat, nanoseconds: nat) returns (done: bool, leftSeconds: nat, leftNanoseconds: nat)
      requires Valid() && nanoseconds < 1_000_000_000
      modifies this
      ensures Valid() && budget <= old(budget) && leftNanoseconds < 1_000_000_000
      ensures var request := seconds * 1_000_000_000 + nanoseconds;
              var left := leftSeconds * 1_000_000_000 + leftNanoseconds;
              && left <= request
              && (done ==> left == 0)
              && (!done ==> budget < old(budget))
              && Does(old(log), log, Slept(request - left))
    {
      Environment();
      var interrupted: bool := *;
      done, leftSeconds, leftNanoseconds := true, 0, 0;
      if interrupted && budget > 0 {
        var left: int := *;
        var request := seconds * 1_000_000_000 + nanoseconds;
        left := if 0 <= left <= request then left else request;
        done, leftSeconds, leftNanoseconds := false, left / 1_000_000_000, left % 1_000_000_000;
        budget := budget - 1;
      }
      Record(Slept(seconds * 1_000_000_000 + nanoseconds - (leftSeconds * 1_000_000_000 + leftNanoseconds)));
    }

    /** sigprocmask, and the mask of sigsuspend. */
    method Mask(blocked: set<Signal>)
      requires Valid()
      modifies this
      ensures Valid() && budget <= old(budget) && Persists(old(w), w)
      ensures Does(old(log), log, Masked(blocked))
    {
      Environment();
      Record(Masked(blocked));
    }

    /** Deliver some of the pending signals among those wanted; returns none when none is. */
    method Deliver(wanted: set<Signal>) returns (sigs: set<Signal>)
      requires Valid()
      modifies this
      ensures Valid() && budget <= old(budget) && Persists(old(w), w)
      ensures sigs <= wanted
      ensures if sigs == {} then Drifts(old(log), log) else Does(old(log), log, Delivered(sigs))
    {
      Environment();
      sigs := *;
      if sigs != {} && sigs <= w.pending && sigs <= wanted && sigs !! w.blocked {
        Record(Delivered(sigs));
      } else {
        sigs := {};
      }
    }
  }

  lemma {:induction false} ChildrenArePositive(log: seq<Event>, pid: int)
    requires Legal(log) && pid in Replay(log).children
    ensures pid > 1
  {
    if log != [] && pid in Replay(Front(log)).children {
      ChildrenArePositive(Front(log), pid);
    }
  }
}
