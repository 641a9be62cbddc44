/** The on-boot directory: a set of links that enabling and disabling edit, and the loader that
    turns them into registered supervisors. */
module OnBoot {
  import opened Common
  import opened Kernel
  import opened HsvTable
  import opened Protocol
  import opened Registry

  const ONBOOT_DIR := "/etc/hinit/[LOAD]/onboot"

  datatype Node = Link(target: string) | Plain

  type Directory = map<string, Node>

  /** What stat reports for each existing path of the service tree; true for a directory. */
  type Tree = map<string, bool>

  function StatOf(sv: Tree, path: string): Stat {
    if path !in sv then Missing else if sv[path] then Stat.Directory else NotDirectory
  }

  predicate IsDot(name: string) {
    name == "." || name == ".."
  }

  predicate LinkFits(name: string) {
    |ONBOOT_DIR| + 1 + |name| < PATH_MAX
  }

  ghost predicate CanEnable(name: string, sv: Tree) {
    && ServicePath(name).Some? && StatOf(sv, ServicePath(name).value) == Stat.Directory
    && LinkFits(name) && !IsDot(name)
  }

  // ---- Which services are enabled ----

  datatype Edit = Enabling(name: string) | Disabling(name: string)

  ghost function EditStep(d: Directory, e: Edit, sv: Tree): Directory {
    match e
    case Enabling(name) => if CanEnable(name, sv) then d[name := Link(ServicePath(name).value)] else d
    case Disabling(name) => if CanDisable(name) then d - {name} else d
  }

  ghost predicate CanDisable(name: string) {
    name != "" && '/' !in name && LinkFits(name) && !IsDot(name)
  }

  class OnBootDirectory {
    var nodes: Directory

    constructor ()
      ensures nodes == map[]
    {
      nodes := map[];
    }

    /** unlink: the two dot entries cannot be removed; a missing entry is ENOENT. */
    method Unlink(name: string) returns (ok: bool, enoent: bool)
      modifies this
      ensures ok <==> !IsDot(name) && name in old(nodes)
      ensures enoent <==> !IsDot(name) && name !in old(nodes)
      ensures nodes == if IsDot(name) then old(nodes) else old(nodes) - {name}
    {
      if IsDot(name) {
        return false, false;
      }
      ok, enoent := name in nodes, name !in nodes;
      nodes := nodes - {name};
    }

    /** Link the service into the directory, replacing any entry of its name. */
    method Enable(name: string, sv: Tree) returns (ok: bool)
      modifies this
      ensures ok <==> CanEnable(name, sv)
      ensures nodes == EditStep(old(nodes), Enabling(name), sv)
    {
      var path := ServicePath(name);
      if path.None? {
        return false;
      }
      var stat := StatOf(sv, path.value);
      if stat == Missing {
        return false;
      }
      if stat != Stat.Directory {
        return false;
      }
      if !LinkFits(name) {
        return false;
      }
      var removed, enoent := Unlink(name);
      if !removed && !enoent {
        return false;
      }
      nodes := nodes[name := Link(path.value)];
      return true;
    }

    /** Remove the entry, if there is one; the service itself need not exist. */
    method Disable(name: string) returns (ok: bool)
      modifies this
      ensures ok <==> CanDisable(name)
      ensures forall sv :: nodes == EditStep(old(nodes), Disabling(name), sv)
    {
      if name == "" || '/' in name {
        return false;
      }
      if !LinkFits(name) {
        return false;
      }
      var removed, enoent := Unlink(name);
      return removed || enoent;
    }

    /** Any sequence of enabling and disabling requests. */
    method Edit(edits: seq<Edit>, sv: Tree)
      requires nodes == map[]
      modifies this
      ensures nodes == Edited(edits, sv)
    {
      for i := 0 to |edits|
        invariant nodes == Edited(edits[..i], sv)
      {
        assert edits[..i + 1][..i] == edits[..i];
        match edits[i]
        case Enabling(name) => var _ := Enable(name, sv);
        case Disabling(name) => var _ := Disable(name);
      }
      assert edits[..|edits|] == edits;
    }
  }

  ghost function Edited(edits: seq<Edit>, sv: Tree): Directory {
    if edits == [] then map[] else EditStep(Edited(edits[..|edits| - 1], sv), edits[|edits| - 1], sv)
  }

  /** Enabled with success at some time and not disabled since. */
  ghost predicate StillEnabled(edits: seq<Edit>, sv: Tree, name: string) {
    && CanEnable(name, sv)
    && exists i :: 0 <= i < |edits| && edits[i] == Enabling(name)
                   && forall j :: i < j < |edits| ==> edits[j] != Disabling(name)
  }

  /** The directory holds exactly the still-enabled services, each linked to its path. */
  lemma {:induction false} DirectoryIsStillEnabled(edits: seq<Edit>, sv: Tree, name: string)
    ensures name in Edited(edits, sv) <==> StillEnabled(edits, sv, name)
    ensures name in Edited(edits, sv) ==> Edited(edits, sv)[name] == Link(ServicePath(name).value)
  {
    if edits != [] {
      var n, before := |edits| - 1, edits[..|edits| - 1];
      DirectoryIsStillEnabled(before, sv, name);
      if StillEnabled(before, sv, name) && edits[n] != Disabling(name) {
        var i :| 0 <= i < n && before[i] == Enabling(name) && forall j :: i < j < n ==> before[j] != Disabling(name);
        assert forall j :: i < j < |edits| ==> edits[j] != Disabling(name) by {
          assert forall j :: i < j < n ==> edits[j] == before[j];
        }
        assert edits[i] == Enabling(name);
        assert StillEnabled(edits, sv, name);
      }
      if StillEnabled(edits, sv, name) && edits[n] != Enabling(name) {
        var i :| 0 <= i < |edits| && edits[i] == Enabling(name)
                 && forall j :: i < j < |edits| ==> edits[j] != Disabling(name);
        assert before[i] == edits[i] && forall j :: i < j < n ==> before[j] == edits[j];
        assert StillEnabled(before, sv, name);
      }
      if edits[n] == Enabling(name) && CanEnable(name, sv) {
        assert StillEnabled(edits, sv, name);
      }
    }
  }

  // ---- Loading ----

  /** The entry is a link to an existing directory. */
  predicate Loadable(d: Directory, sv: Tree, name: string) {
    LinkFits(name) && name in d && d[name].Link? && StatOf(sv, d[name].target) == Stat.Directory
  }

  ghost predicate Present(t: seq<Entry>, name: string) {
    ServicePath(name).Some? && HasService(t, ServicePath(name).value)
  }

  ghost predicate Done(d: Directory, sv: Tree, t: seq<Entry>, name: string) {
    IsDot(name) || (Loadable(d, sv, name) && StatOf(sv, ServicePathOr(name)) == Stat.Directory && Present(t, name))
  }

  function ServicePathOr(name: string): string {
    if ServicePath(name).Some? then ServicePath(name).value else ""
  }

  function Services(t: seq<Entry>): seq<string> {
    seq(|t|, i requires 0 <= i < |t| => t[i].service)
  }

  /** The services registered after one more entry, when no fork fails. */
  function AdmitOne(d: Directory, sv: Tree, t: seq<string>, name: string): seq<string> {
    if !IsDot(name) && Loadable(d, sv, name) && ServicePath(name).Some?
       && StatOf(sv, ServicePathOr(name)) == Stat.Directory && ServicePathOr(name) !in t && |t| < MAX_HSV
    then t + [ServicePathOr(name)] else t
  }

  function Admit(d: Directory, sv: Tree, t: seq<string>, order: seq<string>): seq<string> {
    if order == [] then t
    else AdmitOne(d, sv, Admit(d, sv, t, order[..|order| - 1]), order[|order| - 1])
  }

  ghost predicate ForksSucceed(l0: seq<Event>, l1: seq<Event>) {
    forall i :: |l0| <= i < |l1| ==> !l1[i].ForkFailed?
  }

  ghost predicate GrownBy(t: seq<Entry>, t': seq<Entry>, name: string) {
    t' == t || (ServicePath(name).Some? && exists pid :: t' == t + [Entry(pid, ServicePath(name).value)])
  }

  /** There is room for this new service. */
  ghost predicate Startable(t: seq<Entry>, name: string) {
    ServicePath(name).Some? && !Present(t, name) && |t| < MAX_HSV
  }

  /** Loading this entry starts its service. */
  ghost predicate Tries(d: Directory, sv: Tree, t: seq<Entry>, name: string) {
    && !IsDot(name) && Loadable(d, sv, name)
    && StatOf(sv, ServicePathOr(name)) == Stat.Directory && Startable(t, name)
  }

  /** Everything that loading these entries into the table does: entry by entry, one attempt for each that
      starts its service. */
  ghost predicate LoadActs(d: Directory, sv: Tree, t: seq<Entry>, order: seq<string>, acts: seq<Event>) {
    if order == [] then acts == []
    else
      var before, name := order[..|order| - 1], order[|order| - 1];
      || (acts != [] && LoadActs(d, sv, t, before, Front(acts)) && Tries(d, sv, TableThrough(t, Front(acts)), name)
          && AttemptOf(Last(acts), Hsv(ServicePathOr(name))))
      || (LoadActs(d, sv, t, before, acts) && !Tries(d, sv, TableThrough(t, acts), name))
  }

  lemma Growing(t: seq<Entry>, t': seq<Entry>, name: string, other: string)
    requires GrownBy(t, t', name)
    ensures Present(t, other) ==> Present(t', other)
    ensures Present(t', other) && other != name ==> Present(t, other)
  {
    if t' != t && ServicePath(other).Some? {
      var path := ServicePath(other).value;
      if HasService(t, path) {
        var i :| 0 <= i < |t| && t[i].service == path;
        assert t'[i].service == path;
      }
      if HasService(t', path) && other != name {
        var i :| 0 <= i < |t'| && t'[i].service == path;
        if i == |t| {
          ServicePathInjective(name, other);
        }
      }
    }
  }

  /** One entry: every check must pass, and then the service of the entry's name is started. */
  method LoadEntry(registry: HsvRegistry, d: Directory, sv: Tree, name: string) returns (ok: bool)
    requires registry.Tracked() && !IsDot(name)
    modifies registry`count, registry.table, registry.host
    ensures registry.Tracked() && old(registry.host.log) <= registry.host.log
    ensures LoadsOne(d, sv, name, old(registry.host.log), old(registry.View()), registry.host.log, registry.View())
    ensures ok <==> Done(d, sv, registry.View(), name)
    ensures GrownBy(old(registry.View()), registry.View(), name)
    ensures ForksSucceed(old(registry.host.log), registry.host.log) ==>
              Services(registry.View()) == AdmitOne(d, sv, Services(old(registry.View())), name)
  {
    if !LinkFits(name) {
      return false;
    }
    if name !in d {
      return false;
    }
    if !d[name].Link? {
      return false;
    }
    var target := StatOf(sv, d[name].target);
    if target == Missing {
      return false;
    }
    if target != Stat.Directory {
      return false;
    }
    ghost var t := registry.View();
    ServicesContain(t, ServicePathOr(name));
    ok := registry.StartService(name, StatOf(sv, ServicePathOr(name)));
    ghost var t' := registry.View();
    if t' != t {
      var pid :| t' == t + [Entry(pid, ServicePathOr(name))];
      assert t'[|t|].service == ServicePathOr(name);
      assert Services(t') == Services(t) + [ServicePathOr(name)];
    }
    ServicesContain(t', ServicePathOr(name));
  }

  /** One entry, and nothing else. */
  ghost predicate LoadsOne(d: Directory, sv: Tree, name: string,
                           l0: seq<Event>, t0: seq<Entry>, l1: seq<Event>, t1: seq<Entry>) {
    if Tries(d, sv, t0, name) then exists ok :: Launched(ServicePathOr(name), ok, l0, t0, l1, t1)
    else l1 == l0 && t1 == t0
  }

  /** Every entry has its service registered. */
  ghost predicate AllDone(d: Directory, sv: Tree, t: seq<Entry>, order: seq<string>) {
    forall k :: 0 <= k < |order| ==> Done(d, sv, t, order[k])
  }

  lemma DoneOneMore(d: Directory, sv: Tree, t: seq<Entry>, t': seq<Entry>, before: seq<string>, name: string)
    requires GrownBy(t, t', name)
    ensures AllDone(d, sv, t, before) && Done(d, sv, t', name) ==> AllDone(d, sv, t', before + [name])
    ensures AllDone(d, sv, t', before + [name]) ==> Done(d, sv, t', name)
    ensures NoDuplicates(before + [name]) && AllDone(d, sv, t', before + [name]) ==> AllDone(d, sv, t, before)
  {
    var order := before + [name];
    assert order[|before|] == name && forall k :: 0 <= k < |before| ==> order[k] == before[k];
    forall k | 0 <= k < |before|
      ensures Done(d, sv, t, before[k]) ==> Done(d, sv, t', before[k])
      ensures Done(d, sv, t', before[k]) && before[k] != name ==> Done(d, sv, t, before[k])
    {
      Growing(t, t', name, before[k]);
    }
  }

  /** The entries so far, and nothing else. */
  ghost predicate Loads(d: Directory, sv: Tree, order: seq<string>, acts: seq<Event>,
                        l0: seq<Event>, t0: seq<Entry>, l1: seq<Event>, t1: seq<Entry>) {
    Performs(l0, l1, acts) && LoadActs(d, sv, t0, order, acts) && t1 == TableThrough(t0, acts)
  }

  lemma LoadsOneMore(d: Directory, sv: Tree, order: seq<string>, acts: seq<Event>, name: string,
                     l0: seq<Event>, t0: seq<Entry>, l1: seq<Event>, t1: seq<Entry>, l2: seq<Event>, t2: seq<Entry>)
    returns (acts': seq<Event>)
    requires Loads(d, sv, order, acts, l0, t0, l1, t1) && LoadsOne(d, sv, name, l1, t1, l2, t2)
    ensures Loads(d, sv, order + [name], acts', l0, t0, l2, t2)
  {
    assert (order + [name])[..|order|] == order;
    acts' := acts;
    if Tries(d, sv, t1, name) {
      var ok :| Launched(ServicePathOr(name), ok, l1, t1, l2, t2);
      var e :| AttemptOf(e, Hsv(ServicePathOr(name))) && Does(l1, l2, e) && t2 == TableAfter(t1, e);
      PerformsOneMore(l0, l1, l2, acts, e);
      acts' := acts + [e];
      assert Front(acts') == acts && Last(acts') == e;
    }
  }

  lemma ServicesContain(t: seq<Entry>, path: string)
    ensures HasService(t, path) <==> path in Services(t)
  {
    if HasService(t, path) {
      var i :| 0 <= i < |t| && t[i].service == path;
      assert Services(t)[i] == path;
    }
  }

  ghost predicate NoDuplicates(names: seq<string>) {
    forall i, j :: 0 <= i < j < |names| ==> names[i] != names[j]
  }

  /** The listing was gone through this far. */
  ghost predicate Loaded(d: Directory, sv: Tree, order: seq<string>, ok: bool, acts: seq<Event>,
                         l0: seq<Event>, t0: seq<Entry>, l1: seq<Event>, t1: seq<Entry>) {
    && l0 <= l1 && Loads(d, sv, order, acts, l0, t0, l1, t1)
    && (ok ==> AllDone(d, sv, t1, order)) && (NoDuplicates(order) && AllDone(d, sv, t1, order) ==> ok)
    && (ForksSucceed(l0, l1) ==> Services(t1) == Admit(d, sv, Services(t0), order))
  }

  lemma AdmitNext(d: Directory, sv: Tree, t: seq<string>, order: seq<string>, name: string)
    ensures Admit(d, sv, t, order + [name]) == AdmitOne(d, sv, Admit(d, sv, t, order), name)
  {
    assert (order + [name])[..|order|] == order;
  }

  lemma FewerNames(order: seq<string>, name: string)
    requires NoDuplicates(order + [name])
    ensures NoDuplicates(order)
  {
    assert forall k :: 0 <= k < |order| ==> (order + [name])[k] == order[k];
  }

  lemma LoadedOneMore(d: Directory, sv: Tree, order: seq<string>, ok: bool, acts: seq<Event>, name: string,
                      started: bool, l0: seq<Event>, t0: seq<Entry>, l1: seq<Event>, t1: seq<Entry>,
                      l2: seq<Event>, t2: seq<Entry>)
    returns (acts': seq<Event>)
    requires Loaded(d, sv, order, ok, acts, l0, t0, l1, t1)
    requires l1 <= l2 && LoadsOne(d, sv, name, l1, t1, l2, t2) && GrownBy(t1, t2, name)
    requires started <==> Done(d, sv, t2, name)
    requires ForksSucceed(l1, l2) ==> Services(t2) == AdmitOne(d, sv, Services(t1), name)
    ensures Loaded(d, sv, order + [name], ok && started, acts', l0, t0, l2, t2)
  {
    acts' := LoadsOneMore(d, sv, order, acts, name, l0, t0, l1, t1, l2, t2);
    DoneOneMore(d, sv, t1, t2, order, name);
    AdmitNext(d, sv, Services(t0), order, name);
    if NoDuplicates(order + [name]) {
      FewerNames(order, name);
    }
  }

  /** One more of the listed names; the dot entries are passed over. */
  method LoadNext(registry: HsvRegistry, d: Directory, sv: Tree, name: string) returns (ok: bool)
    requires registry.Tracked()
    modifies registry`count, registry.table, registry.host
    ensures registry.Tracked() && old(registry.host.log) <= registry.host.log
    ensures LoadsOne(d, sv, name, old(registry.host.log), old(registry.View()), registry.host.log, registry.View())
    ensures ok <==> Done(d, sv, registry.View(), name)
    ensures GrownBy(old(registry.View()), registry.View(), name)
    ensures ForksSucceed(old(registry.host.log), registry.host.log) ==>
              Services(registry.View()) == AdmitOne(d, sv, Services(old(registry.View())), name)
  {
    if IsDot(name) {
      return true;
    }
    ok := LoadEntry(registry, d, sv, name);
  }

  /** The loader goes through the directory in the order in which it is read. It reports success
      if and only if every entry has its service registered at the end; and unless a fork
      fails, the table is the one the listing determines. */
  method LoadDirectory(registry: HsvRegistry, d: Directory, sv: Tree, opens: bool, order: seq<string>)
    returns (ok: bool, ghost acts: seq<Event>)
    requires registry.Tracked()
    modifies registry`count, registry.table, registry.host
    ensures registry.Tracked()
    ensures Loads(d, sv, if opens then order else [], acts,
                  old(registry.host.log), old(registry.View()), registry.host.log, registry.View())
    ensures ok ==> opens && AllDone(d, sv, registry.View(), order)
    ensures opens && NoDuplicates(order) && AllDone(d, sv, registry.View(), order) ==> ok
    ensures opens && ForksSucceed(old(registry.host.log), registry.host.log) ==>
              Services(registry.View()) == Admit(d, sv, Services(old(registry.View())), order)
  {
    acts := [];
    if !opens {
      return false, acts;
    }
    ok := true;
    ghost var t0, l0 := registry.View(), registry.host.log;
    for i := 0 to |order|
      invariant registry.Tracked() && Loaded(d, sv, order[..i], ok, acts, l0, t0, registry.host.log, registry.View())
    {
      ghost var t, l, was := registry.View(), registry.host.log, ok;
      var started := LoadNext(registry, d, sv, order[i]);
      TakeNext(order, i);
      acts := LoadedOneMore(d, sv, order[..i], was, acts, order[i], started, l0, t0, l, t,
                            registry.host.log, registry.View());
      if !started {
        ok := false;
      }
    }
    assert order[..|order|] == order;
  }

  /** Start-up: load the on-boot directory and ignore the result. */
  method LoadOnBoot(registry: HsvRegistry, d: Directory, sv: Tree, opens: bool, order: seq<string>)
    returns (ghost acts: seq<Event>)
    requires registry.Tracked()
    modifies registry`count, registry.table, registry.host
    ensures registry.Tracked()
    ensures Loads(d, sv, if opens then order else [], acts,
                  old(registry.host.log), old(registry.View()), registry.host.log, registry.View())
    ensures opens && ForksSucceed(old(registry.host.log), registry.host.log) ==>
              Services(registry.View()) == Admit(d, sv, Services(old(registry.View())), order)
  {
    var ok: bool;
    ok, acts := LoadDirectory(registry, d, sv, opens, order);
  }

  // ---- Agreement ----

  /** The paths of the listed names, without the two dot entries. */
  function Paths(order: seq<string>): seq<string> {
    if order == [] then []
    else
      var rest, name := Paths(order[..|order| - 1]), order[|order| - 1];
      if IsDot(name) then rest else rest + [ServicePathOr(name)]
  }

  function Take(s: seq<string>, n: nat): seq<string> {
    if |s| <= n then s else s[..n]
  }

  /** The listing shows the directory: the dot entries and each node once, in any order. */
  ghost predicate Lists(order: seq<string>, d: Directory) {
    && NoDuplicates(order)
    && (forall k :: 0 <= k < |order| ==> IsDot(order[k]) || order[k] in d)
    && (forall name :: name in d ==> name in order)
  }

  /** On-boot agreement: after any edits from an empty directory, with a stable service tree and
      no failing fork, loading into an empty table registers the still-enabled services,
      each once, in the order of the listing, up to the capacity of the table. */
  lemma OnBootAgreement(edits: seq<Edit>, sv: Tree, order: seq<string>)
    requires Lists(order, Edited(edits, sv))
    ensures Admit(Edited(edits, sv), sv, [], order) == Take(Paths(order), MAX_HSV)
    ensures NoDuplicates(Paths(order))
    ensures forall name :: ServicePath(name).Some? && !IsDot(name) ==>
              (ServicePath(name).value in Paths(order) <==> StillEnabled(edits, sv, name))
  {
    var d := Edited(edits, sv);
    forall name ensures name in d <==> StillEnabled(edits, sv, name)
                ensures name in d ==> d[name] == Link(ServicePathOr(name)) && CanEnable(name, sv)
    {
      DirectoryIsStillEnabled(edits, sv, name);
    }
    AdmitTakes(d, sv, order);
    forall name | ServicePath(name).Some? && !IsDot(name)
      ensures ServicePath(name).value in Paths(order) <==> StillEnabled(edits, sv, name)
    {
      PathsContain(order, name);
    }
  }

  /** With that table, the loader reports success if and only if all services fit. */
  lemma LoadSucceedsIffAllFit(edits: seq<Edit>, sv: Tree, order: seq<string>, t: seq<Entry>)
    requires Lists(order, Edited(edits, sv)) && Services(t) == Take(Paths(order), MAX_HSV)
    ensures AllDone(Edited(edits, sv), sv, t, order) <==> |Paths(order)| <= MAX_HSV
  {
    var d := Edited(edits, sv);
    OnBootAgreement(edits, sv, order);
    if |Paths(order)| <= MAX_HSV {
      forall k | 0 <= k < |order| ensures Done(d, sv, t, order[k]) {
        if !IsDot(order[k]) {
          DirectoryIsStillEnabled(edits, sv, order[k]);
          ServicesContain(t, ServicePathOr(order[k]));
        }
      }
    } else {
      var path := Paths(order)[MAX_HSV];
      var k := PathComesFrom(order, MAX_HSV);
      ServicesContain(t, path);
      assert !Done(d, sv, t, order[k]);
    }
  }

  lemma {:induction false} PathComesFrom(order: seq<string>, i: nat) returns (k: nat)
    requires i < |Paths(order)|
    ensures k < |order| && !IsDot(order[k]) && ServicePathOr(order[k]) == Paths(order)[i]
  {
    var rest := order[..|order| - 1];
    if i < |Paths(rest)| {
      k := PathComesFrom(rest, i);
    } else {
      k := |order| - 1;
    }
  }

  lemma {:induction false} PathsContain(order: seq<string>, name: string)
    requires forall k :: 0 <= k < |order| ==> IsDot(order[k]) || ServicePath(order[k]).Some?
    requires ServicePath(name).Some? && !IsDot(name)
    ensures ServicePath(name).value in Paths(order) <==> name in order
  {
    if order != [] {
      var rest, last := order[..|order| - 1], order[|order| - 1];
      assert order == rest + [last];
      PathsContain(rest, name);
      if !IsDot(last) && ServicePath(last) == ServicePath(name) {
        ServicePathInjective(last, name);
      }
    }
  }

  lemma {:induction false} AdmitTakes(d: Directory, sv: Tree, order: seq<string>)
    requires NoDuplicates(order)
    requires forall k :: 0 <= k < |order| && !IsDot(order[k]) ==>
               order[k] in d && d[order[k]] == Link(ServicePathOr(order[k])) && CanEnable(order[k], sv)
    ensures Admit(d, sv, [], order) == Take(Paths(order), MAX_HSV)
    ensures NoDuplicates(Paths(order))
  {
    if order != [] {
      var rest, last := order[..|order| - 1], order[|order| - 1];
      AdmitTakes(d, sv, rest);
      if !IsDot(last) {
        PathsContain(rest, last);
        assert ServicePathOr(last) !in Paths(rest);
      }
    }
  }
}
