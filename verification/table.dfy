/** The HSV table as a value: entries in the order of registration. */
module HsvTable {
  import opened Common

  datatype Entry = Entry(pid: int, service: string)

  const MAX_HSV: nat := 128

  ghost predicate DistinctPids(t: seq<Entry>) {
    forall i, j :: 0 <= i < j < |t| ==> t[i].pid != t[j].pid
  }

  ghost predicate DistinctServices(t: seq<Entry>) {
    forall i, j :: 0 <= i < j < |t| ==> t[i].service != t[j].service
  }

  predicate HasService(t: seq<Entry>, path: string) {
    exists i :: 0 <= i < |t| && t[i].service == path
  }

  predicate HasPid(t: seq<Entry>, pid: int) {
    exists i :: 0 <= i < |t| && t[i].pid == pid
  }

  /** The table after a registration attempt. */
  function Registered(t: seq<Entry>, pid: int, path: string): seq<Entry> {
    if pid > 0 && |t| < MAX_HSV && |path| < PATH_MAX && !HasService(t, path) then t + [Entry(pid, path)] else t
  }

  function Removed(t: seq<Entry>, index: nat): seq<Entry>
    requires index < |t|
  {
    t[..index] + t[index + 1..]
  }

  /** The table after the child pid is gone: its first entry is removed, if it has one. */
  function WithoutPid(t: seq<Entry>, pid: int): seq<Entry> {
    if t == [] then []
    else if t[0].pid == pid then t[1..]
    else [t[0]] + WithoutPid(t[1..], pid)
  }

  lemma {:induction false} WithoutPidRemovesFirst(t: seq<Entry>, pid: int, index: nat)
    requires index < |t| && t[index].pid == pid
    requires forall i :: 0 <= i < index ==> t[i].pid != pid
    ensures WithoutPid(t, pid) == Removed(t, index)
  {
    if index > 0 {
      WithoutPidRemovesFirst(t[1..], pid, index - 1);
      assert [t[0]] + Removed(t[1..], index - 1) == Removed(t, index);
    }
  }

  lemma {:induction false} WithoutAbsentPid(t: seq<Entry>, pid: int)
    requires !HasPid(t, pid)
    ensures WithoutPid(t, pid) == t
  {
    if t != [] {
      assert t[0].pid != pid;
      WithoutAbsentPid(t[1..], pid);
    }
  }

  lemma ConsIsDistinct(e: Entry, t: seq<Entry>)
    requires DistinctPids(t) && forall x :: x in t ==> x.pid != e.pid
    ensures DistinctPids([e] + t)
  {
    forall i, j | 0 <= i < j < |[e] + t| ensures ([e] + t)[i].pid != ([e] + t)[j].pid {
      assert ([e] + t)[j] == t[j - 1] && t[j - 1] in t;
      assert i > 0 ==> ([e] + t)[i] == t[i - 1];
    }
  }

  lemma TailIsDistinct(t: seq<Entry>)
    requires t != [] && DistinctPids(t)
    ensures DistinctPids(t[1..]) && forall x :: x in t[1..] ==> x.pid != t[0].pid
  {
    assert forall i :: 0 <= i < |t[1..]| ==> t[1..][i] == t[i + 1];
  }

  /** Removing a pid keeps every other entry and the distinctness of pids. */
  lemma {:induction false} WithoutPidKeepsOthers(t: seq<Entry>, pid: int)
    requires DistinctPids(t)
    ensures DistinctPids(WithoutPid(t, pid))
    ensures forall e :: e in WithoutPid(t, pid) <==> e in t && e.pid != pid
  {
    if t != [] {
      TailIsDistinct(t);
      WithoutPidKeepsOthers(t[1..], pid);
      assert forall e :: e in t <==> e == t[0] || e in t[1..];
      if t[0].pid != pid {
        ConsIsDistinct(t[0], WithoutPid(t[1..], pid));
      }
    }
  }

  lemma {:induction false} WithoutPidAddsNone(t: seq<Entry>, pid: int)
    ensures forall e :: e in WithoutPid(t, pid) ==> e in t
  {
    if t != [] && t[0].pid != pid {
      WithoutPidAddsNone(t[1..], pid);
    }
  }

  // ---- The table as a finite map from service paths to pids ----

  datatype Op = Add(pid: int, path: string) | Drop(pid: int)

  function Step(t: seq<Entry>, op: Op): seq<Entry> {
    match op
    case Add(pid, path) => Registered(t, pid, path)
    case Drop(pid) => WithoutPid(t, pid)
  }

  function Run(ops: seq<Op>): seq<Entry> {
    if ops == [] then [] else Step(Run(ops[..|ops| - 1]), ops[|ops| - 1])
  }

  function MapStep(m: map<string, int>, op: Op): map<string, int> {
    match op
    case Add(pid, path) => if pid > 0 && |m| < MAX_HSV && |path| < PATH_MAX && path !in m then m[path := pid] else m
    case Drop(pid) => map path | path in m && m[path] != pid :: m[path]
  }

  function MapRun(ops: seq<Op>): map<string, int> {
    if ops == [] then map[] else MapStep(MapRun(ops[..|ops| - 1]), ops[|ops| - 1])
  }

  /** No registration uses the pid of a registered process, as the kernel guarantees. */
  ghost predicate FreshPids(ops: seq<Op>) {
    forall n :: 0 <= n < |ops| && ops[n].Add? ==> !HasPid(Run(ops[..n]), ops[n].pid)
  }

  ghost predicate Items(t: seq<Entry>, m: map<string, int>) {
    && |t| == |m.Keys|
    && (forall i :: 0 <= i < |t| ==> t[i].service in m && m[t[i].service] == t[i].pid)
    && (forall path :: path in m ==> HasService(t, path))
  }

  ghost predicate Represents(t: seq<Entry>, m: map<string, int>) {
    DistinctServices(t) && DistinctPids(t) && Items(t, m)
  }

  /** The registry refines a finite map, over any sequence of registrations and child exits:
      the entries are the map's items, each once, and there are at most 128. */
  lemma {:induction false} TableRefinesMap(ops: seq<Op>)
    requires FreshPids(ops)
    ensures Represents(Run(ops), MapRun(ops)) && |Run(ops)| <= MAX_HSV
  {
    if ops != [] {
      var ops', op := ops[..|ops| - 1], ops[|ops| - 1];
      assert forall n :: 0 <= n < |ops'| ==> ops'[..n] == ops[..n] && ops'[n] == ops[n];
      TableRefinesMap(ops');
      match op
      case Add(pid, path) => AddRefines(Run(ops'), MapRun(ops'), pid, path);
      case Drop(pid) => DropRefines(Run(ops'), MapRun(ops'), pid);
    }
  }

  lemma AddRefines(t: seq<Entry>, m: map<string, int>, pid: int, path: string)
    requires Represents(t, m) && !HasPid(t, pid)
    ensures Represents(Step(t, Add(pid, path)), MapStep(m, Add(pid, path)))
  {
    assert HasService(t, path) <==> path in m;
    if path !in m {
      AppendKeepsItems(t, m, pid, path);
      AppendKeepsDistinct(t, pid, path);
    }
  }

  lemma AppendKeepsDistinct(t: seq<Entry>, pid: int, path: string)
    requires DistinctServices(t) && DistinctPids(t) && !HasPid(t, pid) && !HasService(t, path)
    ensures DistinctServices(t + [Entry(pid, path)]) && DistinctPids(t + [Entry(pid, path)])
  {
  }

  lemma AppendKeepsItems(t: seq<Entry>, m: map<string, int>, pid: int, path: string)
    requires Items(t, m) && path !in m
    ensures Items(t + [Entry(pid, path)], m[path := pid])
  {
    var t', m' := t + [Entry(pid, path)], m[path := pid];
    assert m'.Keys == m.Keys + {path};
    forall p | p in m' ensures HasService(t', p) {
      AppendedHas(t, pid, path, p);
    }
    forall i | 0 <= i < |t'| ensures t'[i].service in m' && m'[t'[i].service] == t'[i].pid {
      assert i < |t| ==> t'[i] == t[i] && t[i].service != path;
    }
  }

  lemma AppendedHas(t: seq<Entry>, pid: int, path: string, p: string)
    requires p == path || HasService(t, p)
    ensures HasService(t + [Entry(pid, path)], p)
  {
    var t' := t + [Entry(pid, path)];
    if p == path {
      assert t'[|t|].service == p;
    } else {
      var i :| 0 <= i < |t| && t[i].service == p;
      assert t'[i].service == p;
    }
  }

  lemma DropRefines(t: seq<Entry>, m: map<string, int>, pid: int)
    requires Represents(t, m)
    ensures Represents(Step(t, Drop(pid)), MapStep(m, Drop(pid)))
    ensures |Step(t, Drop(pid))| <= |t|
  {
    if i: nat :| i < |t| && t[i].pid == pid {
      WithoutPidRemovesFirst(t, pid, i);
      DropIsRemoval(t, m, i);
      RemovalKeepsItems(t, m, i);
      RemovalKeepsDistinct(t, i);
    } else {
      WithoutAbsentPid(t, pid);
      forall p | p in m ensures m[p] != pid {
        var j :| 0 <= j < |t| && t[j].service == p;
      }
      assert MapStep(m, Drop(pid)) == m;
    }
  }

  lemma DropIsRemoval(t: seq<Entry>, m: map<string, int>, i: nat)
    requires DistinctPids(t) && Items(t, m) && i < |t|
    ensures MapStep(m, Drop(t[i].pid)) == m - {t[i].service}
  {
    forall p | p in m ensures m[p] == t[i].pid <==> p == t[i].service {
      var j :| 0 <= j < |t| && t[j].service == p;
    }
  }

  lemma RemovalKeepsDistinct(t: seq<Entry>, i: nat)
    requires i < |t|
    ensures DistinctServices(t) ==> DistinctServices(Removed(t, i))
    ensures DistinctPids(t) ==> DistinctPids(Removed(t, i))
  {
    var t' := Removed(t, i);
    assert forall j :: 0 <= j < |t'| ==> t'[j] == t[if j < i then j else j + 1];
  }

  lemma RemovalKeepsItems(t: seq<Entry>, m: map<string, int>, i: nat)
    requires DistinctServices(t) && Items(t, m) && i < |t|
    ensures Items(Removed(t, i), m - {t[i].service})
  {
    var t', m' := Removed(t, i), m - {t[i].service};
    assert m'.Keys == m.Keys - {t[i].service};
    forall j | 0 <= j < |t'| ensures t'[j].service in m' && m'[t'[j].service] == t'[j].pid {
      var k := if j < i then j else j + 1;
      assert t'[j] == t[k] && t[k].service != t[i].service;
    }
    forall p | p in m' ensures HasService(t', p) {
      StillHasService(t, i, p);
    }
  }

  lemma StillHasService(t: seq<Entry>, i: nat, path: string)
    requires i < |t| && HasService(t, path) && t[i].service != path
    ensures HasService(Removed(t, i), path)
  {
    var j :| 0 <= j < |t| && t[j].service == path;
    assert Removed(t, i)[if j < i then j else j - 1] == t[j];
  }
}
