/** The HSV registry of one process image: a fixed array with append and shifting deletion,
    and the operations that start, stop and restart services through it. */
module Registry {
  import opened Common
  import opened Kernel
  import opened HsvTable
  import opened Protocol
  import Process

  const SERVICE_DIR := "/etc/hinit/[SV]"

  /** What stat reports for a path. */
  datatype Stat = Missing | NotDirectory | Directory

  /** The path of a service: names are not empty, contain no '/', and must leave room. */
  function ServicePath(name: string): Option<string> {
    if name == "" || '/' in name || |SERVICE_DIR| + 1 + |name| >= PATH_MAX then None
    else Some(SERVICE_DIR + "/" + name)
  }

  /** Different accepted names have different paths, so the table can be read by name. */
  lemma ServicePathInjective(a: string, b: string)
    requires ServicePath(a).Some? && ServicePath(a) == ServicePath(b)
    ensures a == b
  {
    var n := |SERVICE_DIR| + 1;
    assert (SERVICE_DIR + "/" + a)[n..] == a;
    assert (SERVICE_DIR + "/" + b)[n..] == b;
  }

  /** A signal was sent to the HSV that this table lists for the service. */
  ghost predicate Hits(t: seq<Entry>, service: string, sig: Signal, l0: seq<Event>, l1: seq<Event>) {
    exists pid :: Entry(pid, service) in t && Does(l0, l1, Killed(pid, Hsv(service), sig))
  }

  /** One HSV was tried, and it is registered exactly if it runs. */
  ghost predicate Launched(service: string, ok: bool, l0: seq<Event>, t0: seq<Entry>, l1: seq<Event>, t1: seq<Entry>) {
    exists e :: AttemptOf(e, Hsv(service)) && Does(l0, l1, e) && (ok <==> e.Forked?) && t1 == TableAfter(t0, e)
  }

  class HsvRegistry {
    const host: Host
    const table: array<Entry>
    var count: nat

    ghost predicate Valid() reads this, table {
      table.Length == MAX_HSV && count <= MAX_HSV && DistinctServices(View())
    }

    /** The registered entries in order of registration. */
    ghost function View(): seq<Entry>
      reads this, table
      requires count <= table.Length
    {
      table[..count]
    }

    constructor (host: Host)
      ensures this.host == host && fresh(table) && Valid() && View() == []
    {
      this.host := host;
      table := new Entry[MAX_HSV](_ => Entry(0, ""));
      count := 0;
    }

    method Find(path: string) returns (index: int)
      requires Valid()
      ensures -1 <= index < count
      ensures index == -1 <==> !HasService(View(), path)
      ensures index >= 0 ==> View()[index].service == path
    {
      for i := 0 to count
        invariant forall j :: 0 <= j < i ==> table[j].service != path
      {
        if table[i].service == path {
          assert View()[i].service == path;
          return i;
        }
      }
      return -1;
    }

    method Register(pid: int, path: string) returns (ok: bool)
      requires Valid()
      modifies this`count, table
      ensures Valid()
      ensures ok <==> pid > 0 && old(count) < MAX_HSV && |path| < PATH_MAX && !HasService(old(View()), path)
      ensures View() == Registered(old(View()), pid, path)
    {
      if pid <= 0 {
        return false;
      }
      if count >= MAX_HSV {
        return false;
      }
      if |path| >= PATH_MAX {
        return false;
      }
      var index := Find(path);
      if index >= 0 {
        return false;
      }
      ghost var before := View();
      table[count] := Entry(pid, path);
      count := count + 1;
      assert View() == before + [Entry(pid, path)];
      return true;
    }

    /** Later entries move down by one place; all others stay, in their order. */
    method Unregister(index: nat)
      requires Valid()
      modifies this`count, table
      ensures Valid()
      ensures View() == if index < old(count) then Removed(old(View()), index) else old(View())
    {
      if index >= count {
        return;
      }
      ghost var before := View();
      for i := index to count - 1
        invariant count == old(count)
        invariant forall j :: 0 <= j < i ==> table[j] == before[if j < index then j else j + 1]
        invariant forall j :: i <= j < count ==> table[j] == before[j]
      {
        table[i] := table[i + 1];
      }
      count := count - 1;
      RemovalKeepsDistinct(before, index);
      assert View() == Removed(before, index);
    }

    /** A child was reaped: its entry goes, if it has one, and nothing else changes. */
    method ChildExit(pid: int, status: Status)
      requires Valid()
      modifies this`count, table
      ensures Valid() && View() == WithoutPid(old(View()), pid)
    {
      for i := 0 to count
        invariant Valid() && View() == old(View()) && count == old(count)
        invariant forall j :: 0 <= j < i ==> old(View())[j].pid != pid
      {
        if table[i].pid == pid {
          WithoutPidRemovesFirst(View(), pid, i);
          Unregister(i);
          return;
        }
      }
      WithoutAbsentPid(View(), pid);
    }

    /** The table and the log agree: the log's forks and reaps explain every entry. */
    ghost predicate Tracked() reads this, table, host {
      Valid() && host.Valid() && Accepted(host.log) && AtRest(PhaseOf(host.log)) && View() == TableOf(host.log)
    }

    /** Fork an HSV unless the service already has one. The find and capacity checks come first,
        and nothing reaps in between, so that a successful fork always yields exactly one
        entry: the registration after it cannot fail. */
    method StartService(name: string, stat: Stat) returns (ok: bool)
      requires Tracked()
      modifies this`count, table, host
      ensures Tracked() && host.budget <= old(host.budget)
      ensures PhaseOf(host.log) == PhaseOf(old(host.log)) && ChldDue(host.log) == ChldDue(old(host.log))
      ensures old(host.log) <= host.log
      ensures var path := ServicePath(name);
              if path.None? || stat != Directory then
                !ok && host.log == old(host.log) && View() == old(View())
              else if HasService(old(View()), path.value) then
                ok && host.log == old(host.log) && View() == old(View())
              else if old(count) >= MAX_HSV then
                !ok && host.log == old(host.log) && View() == old(View())
              else
                Launched(path.value, ok, old(host.log), old(View()), host.log, View())
    {
      var path := ServicePath(name);
      if path.None? {
        return false;
      }
      if stat != Directory {
        return false;
      }
      var index := Find(path.value);
      if index >= 0 {
        return true;
      }
      if count >= MAX_HSV {
        return false;
      }
      ghost var l0 := host.log;
      var pid := host.Fork(Hsv(path.value));
      DoesMoves(l0, host.log, Last(host.log));
      assert Does(l0, host.log, Last(host.log)) && AttemptOf(Last(host.log), Hsv(path.value));
      if pid < 0 {
        return false;
      }
      ok := Register(pid, path.value);
      assert ok;
    }

    /** Ask the HSV of a service to stop. The signal goes to that very HSV. */
    method StopService(name: string) returns (ok: bool)
      requires Tracked()
      modifies host
      ensures Tracked() && host.budget <= old(host.budget)
      ensures PhaseOf(host.log) == PhaseOf(old(host.log)) && ChldDue(host.log) == ChldDue(old(host.log))
      ensures View() == old(View()) && old(host.log) <= host.log
      ensures var path := ServicePath(name);
              if path.None? then !ok && host.log == old(host.log)
              else if !HasService(View(), path.value) then ok && host.log == old(host.log)
              else ok && Hits(View(), path.value, Term, old(host.log), host.log)
    {
      var path := ServicePath(name);
      if path.None? {
        return false;
      }
      var index := Find(path.value);
      if index < 0 {
        return true;
      }
      ok := SignalEntry(index, Term);
    }

    /** Ask the HSV of a service to restart it. */
    method RestartService(name: string) returns (ok: bool)
      requires Tracked()
      modifies host
      ensures Tracked() && host.budget <= old(host.budget)
      ensures PhaseOf(host.log) == PhaseOf(old(host.log)) && ChldDue(host.log) == ChldDue(old(host.log))
      ensures View() == old(View()) && old(host.log) <= host.log
      ensures var path := ServicePath(name);
              if path.None? || !HasService(View(), path.value) then !ok && host.log == old(host.log)
              else ok && Hits(View(), path.value, Usr1, old(host.log), host.log)
    {
      var path := ServicePath(name);
      if path.None? {
        return false;
      }
      var index := Find(path.value);
      if index < 0 {
        return false;
      }
      ok := SignalEntry(index, Usr1);
    }

    method SignalEntry(index: nat, sig: Signal) returns (ok: bool)
      requires Tracked() && index < count
      modifies host
      ensures Tracked() && ok && host.budget <= old(host.budget) && View() == old(View())
      ensures PhaseOf(host.log) == PhaseOf(old(host.log)) && ChldDue(host.log) == ChldDue(old(host.log))
      ensures View()[index] in View()
      ensures Does(old(host.log), host.log, Killed(View()[index].pid, Hsv(View()[index].service), sig))
    {
      ghost var l0, e := host.log, View()[index];
      Ownership(l0);
      assert e in TableOf(l0);
      ok := host.Signal(table[index].pid, sig);
      DoesMoves(l0, host.log, Last(host.log));
    }

    /** Every entry is an unreaped HSV of this process. */
    ghost predicate OwnsEntries() reads this, table, host {
      Valid() && host.Valid() && Owned(View(), host.w)
    }

    /** Stop all HSVs of this process, newest first, and collect each before turning to the
        next. */
    method ShutdownAll()
      requires OwnsEntries()
      modifies this`count, table, host
      ensures Valid() && View() == [] && host.Valid()
      ensures Deeds(host.log) == Deeds(old(host.log)) + ShutdownDeeds(old(View()))
      ensures forall pid :: Sent(pid, Term) in Deeds(host.log)[|Deeds(old(host.log))|..] <==> HasPid(old(View()), pid)
      ensures old(View()) == [] ==> host.log == old(host.log)
    {
      ghost var all, l0 := Deeds(host.log) + ShutdownDeeds(View()), host.log;
      while count > 0
        invariant OwnsEntries()
        invariant old(count) == 0 ==> count == 0 && host.log == l0
        invariant Deeds(host.log) + ShutdownDeeds(View()) == all
      {
        ghost var t, deeds := View(), Deeds(host.log);
        StopLast();
        UnfoldShutdown(deeds, t);
      }
      assert ShutdownDeeds(View()) == [];
      forall pid ensures Sent(pid, Term) in ShutdownDeeds(old(View())) <==> HasPid(old(View()), pid) {
        StopsIffListed(old(View()), pid);
      }
    }

    /** One round of the shutdown: the newest entry's HSV is signalled, collected and removed.
        The wait cannot fail, because the entry's pid is an unreaped child. */
    method StopLast()
      requires OwnsEntries() && count > 0
      modifies this`count, table, host
      ensures OwnsEntries() && count == old(count) - 1 && View() == old(View())[..count]
      ensures var pid := old(View())[old(count) - 1].pid;
              Deeds(host.log) == Deeds(old(host.log)) + [Sent(pid, Term), Collected(pid)]
    {
      ghost var t, l0 := View(), host.log;
      var pid := table[count - 1].pid;
      assert t[count - 1] in t;
      var ok := host.Signal(pid, Term);
      ghost var l1 := host.log;
      DoesPersists(l0, l1, Last(l1));
      var outcome := Process.Wait(host, pid);
      StoppingOne(t, l0, l1, host.log, Last(l1), Last(host.log));
      Unregister(count - 1);
      assert View() == t[..|t| - 1];
    }
  }

  ghost predicate Owned(t: seq<Entry>, w: World) {
    DistinctPids(t) && forall e :: e in t ==> Runs(w, e.pid, Hsv(e.service))
  }

  lemma StoppingOne(t: seq<Entry>, l0: seq<Event>, l1: seq<Event>, l2: seq<Event>, kill: Event, wait: Event)
    requires Legal(l1) && Legal(l2) && t != [] && Owned(t, Replay(l0))
    requires Does(l0, l1, kill) && kill.Killed? && kill.pid == t[|t| - 1].pid && kill.sig == Term
    requires Does(l1, l2, wait) && wait.Waited? && wait.pid == kill.pid
    ensures Owned(t[..|t| - 1], Replay(l2))
    ensures Deeds(l2) == Deeds(l0) + [Sent(kill.pid, Term), Collected(kill.pid)]
  {
    DoesDeeds(l0, l1, kill);
    DoesDeeds(l1, l2, wait);
    OthersPersist(l0, l1, l2, kill, wait);
    OthersStay(t, Replay(l0), Replay(l2));
  }

  lemma OthersPersist(l0: seq<Event>, l1: seq<Event>, l2: seq<Event>, kill: Event, wait: Event)
    requires Legal(l1) && Legal(l2) && Does(l0, l1, kill) && kill.Killed? && Does(l1, l2, wait) && wait.Waited?
    ensures forall p :: p in Replay(l0).children && p != wait.pid ==>
              Runs(Replay(l2), p, Replay(l0).children[p].program)
  {
    DoesPersists(l0, l1, kill);
    DoesPersists(l1, l2, wait);
  }

  lemma OthersStay(t: seq<Entry>, w: World, w': World)
    requires t != [] && Owned(t, w)
    requires forall p :: p in w.children && p != t[|t| - 1].pid ==> Runs(w', p, w.children[p].program)
    ensures Owned(t[..|t| - 1], w')
  {
    var t', pid := t[..|t| - 1], t[|t| - 1].pid;
    forall e | e in t' ensures Runs(w', e.pid, Hsv(e.service)) {
      var i :| 0 <= i < |t'| && t'[i] == e;
      assert t[i] in t && t[i].pid != pid;
    }
  }

  /** What a process does to others, without the environment's part. */
  datatype Deed = Sent(pid: int, sig: Signal) | Collected(pid: int) | Other

  function DeedsOf(e: Event): seq<Deed> {
    if Ambient(e) then []
    else match e
      case Killed(pid, _, sig) => [Sent(pid, sig)]
      case Waited(pid, _, _) => [Collected(pid)]
      case _ => [Other]
  }

  function Deeds(log: seq<Event>): seq<Deed> {
    if log == [] then [] else Deeds(Front(log)) + DeedsOf(Last(log))
  }

  function ShutdownDeeds(t: seq<Entry>): seq<Deed> {
    if t == [] then []
    else var pid := t[|t| - 1].pid; [Sent(pid, Term), Collected(pid)] + ShutdownDeeds(t[..|t| - 1])
  }

  lemma UnfoldShutdown(deeds: seq<Deed>, t: seq<Entry>)
    requires t != []
    ensures var pid := t[|t| - 1].pid;
            deeds + ShutdownDeeds(t) == deeds + [Sent(pid, Term), Collected(pid)] + ShutdownDeeds(t[..|t| - 1])
  {
  }

  /** The shutdown signals and collects each entry exactly once, last entry first. */
  lemma {:induction false} ShutdownIsReverse(t: seq<Entry>, k: nat)
    requires k < |t|
    ensures |ShutdownDeeds(t)| == 2 * |t|
    ensures ShutdownDeeds(t)[2 * k] == Sent(t[|t| - 1 - k].pid, Term)
    ensures ShutdownDeeds(t)[2 * k + 1] == Collected(t[|t| - 1 - k].pid)
  {
    if |t| > 1 {
      ShutdownIsReverse(t[..|t| - 1], if k == 0 then 0 else k - 1);
    } else {
      assert ShutdownDeeds(t[..0]) == [];
    }
  }

  /** The shutdown sends SIGTERM to a process if and only if the table of its own process image
      lists it, whatever other HSVs the machine has. */
  lemma {:induction false} StopsIffListed(t: seq<Entry>, pid: int)
    ensures Sent(pid, Term) in ShutdownDeeds(t) <==> HasPid(t, pid)
    ensures Collected(pid) in ShutdownDeeds(t) <==> HasPid(t, pid)
  {
    if t != [] {
      var rest, last := t[..|t| - 1], t[|t| - 1];
      StopsIffListed(rest, pid);
      assert t == rest + [last];
      assert ShutdownDeeds(t) == [Sent(last.pid, Term), Collected(last.pid)] + ShutdownDeeds(rest);
    }
  }

  /** The MD0 program runs in a process of its own, whose table is empty: it stops no HSV. */
  method Md0Main(host: Host)
    requires host.Valid()
    modifies host
    ensures host.log == old(host.log)
  {
    var registry := new HsvRegistry(host);
    registry.ShutdownAll();
  }

  lemma {:induction false} DriftHasNoDeeds(l0: seq<Event>, l1: seq<Event>)
    requires Drifts(l0, l1)
    ensures Deeds(l1) == Deeds(l0)
    decreases |l1|
  {
    if |l0| < |l1| {
      assert Ambient(Last(l1));
      DriftHasNoDeeds(l0, Front(l1));
    } else {
      assert l0 == l1;
    }
  }

  lemma DoesDeeds(l0: seq<Event>, l1: seq<Event>, e: Event)
    requires Does(l0, l1, e)
    ensures Deeds(l1) == Deeds(l0) + DeedsOf(e)
  {
    DriftHasNoDeeds(l0, Front(l1));
  }
}
