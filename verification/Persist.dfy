/**
 The supervisor's table of instances, its port allocation, and the state file that brings the
 same models back after an agent restart. Commands run one at a time here; between them the
 goroutines of `Supervisor` may change an instance in any way that leaves `desired` alone. A stop that
 can never return stays blocked in its own goroutine, and the other commands go on.
 */
module Persist {
  import opened Options
  import opened Supervisor

  const PORT_RANGE := 200

  datatype Spec = Spec(servedName: string, launch: string)

  /** `attended` says that a goroutine is left that may close the instance's channel. */
  datatype Entry = Entry(spec: Spec, port: int, h: Shared, attended: bool)

  /** `disk` is the content of the state file, None when it does not exist. */
  datatype Table = Table(base: int, instances: map<string, Entry>, disk: Option<set<Spec>>)

  datatype Command =
    | Start(spec: Spec, busy: set<int>, launches: bool)  // busy: ports other programs hold
    | Stop(name: string)
    | Remove(name: string)
    | Goroutine(who: string, h: Shared, attended: bool, persists: bool)

  // ---------------------------------------------------------------------------
  // The operations
  // ---------------------------------------------------------------------------

  function Desired(instances: map<string, Entry>): set<Spec> {
    set n | n in instances && instances[n].h.desired :: instances[n].spec
  }

  function Persisted(s: Table): Table {
    s.(disk := Some(Desired(s.instances)))
  }

  function UsedPorts(instances: map<string, Entry>): set<int> {
    set n | n in instances :: instances[n].port
  }

  /** The lowest port in [p, hi) that is neither used nor busy. */
  function FreePort(p: int, hi: int, taken: set<int>): (r: Option<int>)
    ensures r.Some? ==> p <= r.value < hi && r.value !in taken && forall q | p <= q < r.value :: q in taken
    ensures r.None? ==> forall q | p <= q < hi :: q in taken
    decreases hi - p
  {
    if p >= hi then None
    else if p !in taken then Some(p)
    else FreePort(p + 1, hi, taken)
  }

  predicate Accepts(s: Table, spec: Spec, busy: set<int>) {
    && spec.servedName != ""
    && (spec.servedName in s.instances ==>
          var st := s.instances[spec.servedName].h.state; st != Ready && st != Starting)
    && FreePort(s.base, s.base + PORT_RANGE, UsedPorts(s.instances) + busy).Some?
  }

  function StartModel(s: Table, spec: Spec, busy: set<int>, launches: bool): Table {
    if !Accepts(s, spec, busy) then s
    else
      var port := FreePort(s.base, s.base + PORT_RANGE, UsedPorts(s.instances) + busy).value;
      var h := if launches then FreshInstance() else SetState(FreshInstance(), Failed);
      var s1 := s.(instances := s.instances[spec.servedName := Entry(spec, port, h, launches)]);
      if launches then Persisted(s1) else s1
  }

  /** A stop of this instance never returns (`Supervisor.StopCanReturnIff`). */
  predicate Hangs(e: Entry) {
    e.h.cmd.Some? && e.h.exited !in e.h.closed && !e.attended
  }

  function Halted(e: Entry, clearDesired: bool): Entry {
    e.(h := SetState(RequestStop(e.h, clearDesired), Stopped))
  }

  /** A stop that never returns has still raised its flags. */
  function Flagged(e: Entry, clearDesired: bool): Entry {
    e.(h := RequestStop(e.h, clearDesired))
  }

  function StopModel(s: Table, name: string, clearDesired: bool): Table {
    if name !in s.instances then s
    else if Hangs(s.instances[name]) then s.(instances := s.instances[name := Flagged(s.instances[name], clearDesired)])
    else Persisted(s.(instances := s.instances[name := Halted(s.instances[name], clearDesired)]))
  }

  function RemoveModel(s: Table, name: string): Table {
    if name !in s.instances then s
    else
      var s1 := StopModel(s, name, true);
      if Hangs(s.instances[name]) then s1 else Persisted(s1.(instances := s1.instances - {name}))
  }

  /** Agent shutdown: the engines are stopped one after the other, up to the first stop that never
      returns; none is forgotten. */
  function StopEverything(s: Table, names: seq<string>): Table
    decreases |names|
  {
    if names == [] then s
    else if names[0] in s.instances && Hangs(s.instances[names[0]]) then StopModel(s, names[0], false)
    else StopEverything(StopModel(s, names[0], false), names[1..])
  }

  function Apply(s: Table, c: Command): Table {
    match c
    case Start(spec, busy, launches) => StartModel(s, spec, busy, launches)
    case Stop(name) => StopModel(s, name, true)
    case Remove(name) => RemoveModel(s, name)
    case Goroutine(who, h, attended, persists) =>
      if who !in s.instances || h.desired != s.instances[who].h.desired then s
      else
        var s1 := s.(instances := s.instances[who := s.instances[who].(h := h, attended := attended)]);
        if persists then Persisted(s1) else s1
  }

  function Run(s: Table, cs: seq<Command>): Table
    decreases |cs|
  {
    if cs == [] then s else Run(Apply(s, cs[0]), cs[1..])
  }

  function WantedAfter(s: Table, w: map<string, Spec>, c: Command): map<string, Spec> {
    match c
    case Start(spec, busy, _) => if Accepts(s, spec, busy) then w[spec.servedName := spec] else w
    case Stop(name) => w - {name}
    case Remove(name) => w - {name}
    case Goroutine(_, _, _, _) => w
  }

  /** The specs whose last accepted command was Start, by served name. */
  function Wanted(s: Table, w: map<string, Spec>, cs: seq<Command>): map<string, Spec>
    decreases |cs|
  {
    if cs == [] then w else Wanted(Apply(s, cs[0]), WantedAfter(s, w, cs[0]), cs[1..])
  }

  function Restore(s: Table, specs: seq<Spec>, busy: set<int>, launches: Spec -> bool): Table
    decreases |specs|
  {
    if specs == [] then s
    else Restore(StartModel(s, specs[0], busy, launches(specs[0])), specs[1..], busy, launches)
  }

  // ---------------------------------------------------------------------------
  // Invariants
  // ---------------------------------------------------------------------------

  ghost predicate Named(s: Table) {
    forall n | n in s.instances :: n != "" && s.instances[n].spec.servedName == n
  }

  /** Instances in the table hold pairwise distinct ports inside the range. */
  ghost predicate PortsDistinct(s: Table) {
    && (forall n | n in s.instances :: s.base <= s.instances[n].port < s.base + PORT_RANGE)
    && (forall n, m | n in s.instances && m in s.instances && s.instances[n].port == s.instances[m].port :: n == m)
  }

  ghost predicate WellFormed(s: Table) {
    && Named(s)
    && PortsDistinct(s)
    && (s.instances.Keys == {} ==> s.disk.None? || s.disk.value == {})
    && FileNamed(s.disk)
  }

  /** The file lists at most one spec for a name, and none without a name. */
  ghost predicate FileNamed(d: Option<set<Spec>>) {
    d.Some? ==>
      && (forall x | x in d.value :: x.servedName != "")
      && (forall x, y | x in d.value && y in d.value && x.servedName == y.servedName :: x == y)
  }

  lemma SavedIsNamed(s: Table)
    requires Named(s)
    ensures FileNamed(Persisted(s).disk)
  {
  }

  /** `w` holds exactly the specs of the instances marked desired. */
  ghost predicate Tracks(s: Table, w: map<string, Spec>) {
    forall n :: (n in w <==> n in s.instances && s.instances[n].h.desired)
                && (n in w ==> w[n] == s.instances[n].spec)
  }

  lemma StartKeeps(s: Table, spec: Spec, busy: set<int>, launches: bool)
    requires WellFormed(s)
    ensures WellFormed(StartModel(s, spec, busy, launches))
  {
    var s' := StartModel(s, spec, busy, launches);
    if Accepts(s, spec, busy) {
      assert spec.servedName in s'.instances.Keys;
      assert Named(s');
      SavedIsNamed(s');
      forall m | m in s.instances ensures s.instances[m].port != s'.instances[spec.servedName].port {
        assert s.instances[m].port in UsedPorts(s.instances);
      }
    }
  }

  lemma StopKeeps(s: Table, name: string, clearDesired: bool)
    requires WellFormed(s)
    ensures WellFormed(StopModel(s, name, clearDesired))
  {
    if name in s.instances {
      var s' := StopModel(s, name, clearDesired);
      assert name in s'.instances.Keys;
      SavedIsNamed(s');
    }
  }

  lemma RemoveKeeps(s: Table, name: string)
    requires WellFormed(s) && WellFormed(StopModel(s, name, true))
    ensures WellFormed(RemoveModel(s, name))
  {
    SavedIsNamed(RemoveModel(s, name));
  }

  lemma GoroutineKeeps(s: Table, c: Command)
    requires WellFormed(s) && c.Goroutine?
    ensures WellFormed(Apply(s, c)) && Apply(s, c).base == s.base
  {
    if c.who in s.instances {
      assert c.who in Apply(s, c).instances.Keys;
      SavedIsNamed(Apply(s, c));
    }
  }

  lemma StepKeeps(s: Table, c: Command)
    requires WellFormed(s)
    ensures WellFormed(Apply(s, c)) && Apply(s, c).base == s.base
  {
    match c {
      case Start(spec, busy, launches) => StartKeeps(s, spec, busy, launches);
      case Stop(name) => StopKeeps(s, name, true);
      case Remove(name) =>
        StopKeeps(s, name, true);
        RemoveKeeps(s, name);
      case Goroutine(_, _, _, _) => GoroutineKeeps(s, c);
    }
  }

  lemma StartTracks(s: Table, w: map<string, Spec>, spec: Spec, busy: set<int>, launches: bool)
    requires Named(s) && Tracks(s, w)
    ensures Tracks(StartModel(s, spec, busy, launches), if Accepts(s, spec, busy) then w[spec.servedName := spec] else w)
  {
  }

  lemma StopTracks(s: Table, w: map<string, Spec>, name: string)
    requires Named(s) && Tracks(s, w)
    ensures Tracks(StopModel(s, name, true), w - {name}) && Tracks(RemoveModel(s, name), w - {name})
  {
  }

  lemma StepTracks(s: Table, w: map<string, Spec>, c: Command)
    requires Named(s) && Tracks(s, w)
    ensures Tracks(Apply(s, c), WantedAfter(s, w, c))
  {
    match c
    case Start(spec, busy, launches) => StartTracks(s, w, spec, busy, launches);
    case Stop(name) => StopTracks(s, w, name);
    case Remove(name) => StopTracks(s, w, name);
    case Goroutine(_, _, _, _) =>
  }

  /** In every run of commands the instances in the table hold pairwise distinct ports inside the
      range, and the models marked desired are those whose last accepted command was Start. */
  lemma {:induction false} RunKeeps(s: Table, w: map<string, Spec>, cs: seq<Command>)
    requires WellFormed(s) && Tracks(s, w)
    ensures WellFormed(Run(s, cs)) && Run(s, cs).base == s.base
    ensures Tracks(Run(s, cs), Wanted(s, w, cs))
    decreases |cs|
  {
    if cs != [] {
      StepKeeps(s, cs[0]);
      StepTracks(s, w, cs[0]);
      RunKeeps(Apply(s, cs[0]), WantedAfter(s, w, cs[0]), cs[1..]);
    }
  }

  /** Distinct ports in a range of 200 leave room for at most 200 instances. */
  lemma AtMostRange(s: Table)
    requires PortsDistinct(s)
    ensures |s.instances| <= PORT_RANGE
  {
    ImageSize(s.instances.Keys, s.instances);
    SubsetSize(UsedPorts(s.instances), Ports(s.base, PORT_RANGE));
  }

  /** The ports from `lo`, `n` of them. */
  ghost function Ports(lo: int, n: nat): (r: set<int>)
    ensures forall p :: p in r <==> lo <= p < lo + n
    ensures |r| == n
  {
    if n == 0 then {} else Ports(lo, n - 1) + {lo + n - 1}
  }

  lemma SubsetSize<T>(a: set<T>, b: set<T>)
    requires a <= b
    ensures |a| <= |b|
  {
    assert b == a + (b - a);
  }

  lemma ImageSize(names: set<string>, m: map<string, Entry>)
    requires names <= m.Keys
    requires forall n, k | n in m && k in m && m[n].port == m[k].port :: n == k
    ensures |set n | n in names :: m[n].port| == |names|
    decreases |names|
  {
    if names != {} {
      var n :| n in names;
      ImageSize(names - {n}, m);
      assert (set k | k in names :: m[k].port) == (set k | k in names - {n} :: m[k].port) + {m[n].port};
    }
  }

  // ---------------------------------------------------------------------------
  // Which starts are accepted
  // ---------------------------------------------------------------------------

  /** Some port of the range is neither an instance's nor another program's. */
  ghost predicate PortLeft(s: Table, busy: set<int>) {
    exists p :: s.base <= p < s.base + PORT_RANGE && p !in UsedPorts(s.instances) && p !in busy
  }

  /** A start is accepted exactly when it names a model, the model is not starting or ready on the node,
      and a port is left. */
  lemma AcceptsIff(s: Table, spec: Spec, busy: set<int>)
    ensures Accepts(s, spec, busy) <==>
            && spec.servedName != "" && PortLeft(s, busy)
            && (spec.servedName !in s.instances || s.instances[spec.servedName].h.state in {Stopped, Failed})
  {
    var taken := UsedPorts(s.instances) + busy;
    var p := FreePort(s.base, s.base + PORT_RANGE, taken);
    if p.Some? { assert p.value !in UsedPorts(s.instances) && p.value !in busy; }
    if PortLeft(s, busy) {
      var q :| s.base <= q < s.base + PORT_RANGE && q !in UsedPorts(s.instances) && q !in busy;
      assert q !in taken;
    }
  }

  /** A model whose stop returned can be started again where a port is left, and a start that is not
      accepted changes nothing. */
  lemma StoppedCanStart(s: Table, name: string, clearDesired: bool, spec: Spec, busy: set<int>)
    requires name in s.instances && !Hangs(s.instances[name]) && spec.servedName == name && name != ""
    ensures var s1 := StopModel(s, name, clearDesired);
            Accepts(s1, spec, busy) <==> PortLeft(s1, busy)
    ensures s.instances[name].h.state in {Starting, Ready} ==>
              !Accepts(s, spec, busy) && forall launches :: StartModel(s, spec, busy, launches) == s
  {
    AcceptsIff(StopModel(s, name, clearDesired), spec, busy);
    AcceptsIff(s, spec, busy);
  }

  // ---------------------------------------------------------------------------
  // Restart brings back exactly the wanted models
  // ---------------------------------------------------------------------------

  /** The number of ports of the range that no other program holds. */
  ghost function FreePorts(base: int, busy: set<int>): nat {
    |Ports(base, PORT_RANGE) - busy|
  }

  /** No instance has a port another program holds. */
  ghost predicate Undisturbed(s: Table, busy: set<int>) {
    UsedPorts(s.instances) !! busy
  }

  lemma SizeOfRest<T>(used: set<T>, free: set<T>)
    requires used <= free
    ensures |used| < |free| <==> exists p :: p in free && p !in used
  {
    var rest := free - used;
    assert free == used + rest && |free| == |used| + |rest|;
    if p :| p in free && p !in used {
      assert p in rest;
    } else {
      assert rest == {};
    }
  }

  lemma PortFoundMeans(base: int, taken: set<int>)
    ensures FreePort(base, base + PORT_RANGE, taken).Some? <==> exists p :: p in Ports(base, PORT_RANGE) && p !in taken
  {
    var p := FreePort(base, base + PORT_RANGE, taken);
    if p.Some? { assert p.value in Ports(base, PORT_RANGE); }
  }

  lemma UsedAreFree(s: Table, busy: set<int>)
    requires PortsDistinct(s) && Undisturbed(s, busy)
    ensures UsedPorts(s.instances) <= Ports(s.base, PORT_RANGE) - busy && |UsedPorts(s.instances)| == |s.instances|
  {
    ImageSize(s.instances.Keys, s.instances);
  }

  /** A port can be found exactly when there are fewer instances than free ports. */
  lemma PortFoundIff(s: Table, busy: set<int>)
    requires PortsDistinct(s) && Undisturbed(s, busy)
    ensures FreePort(s.base, s.base + PORT_RANGE, UsedPorts(s.instances) + busy).Some?
       <==> |s.instances| < FreePorts(s.base, busy)
  {
    var all, used := Ports(s.base, PORT_RANGE), UsedPorts(s.instances);
    UsedAreFree(s, busy);
    SizeOfRest(used, all - busy);
    PortFoundMeans(s.base, used + busy);
    assert forall p :: (p in all && p !in used + busy) <==> (p in all - busy && p !in used);
  }

  ghost predicate Distinct(specs: seq<Spec>) {
    forall i, j | 0 <= i < j < |specs| :: specs[i].servedName != specs[j].servedName
  }

  /** Every listed spec is in the table and marked desired. */
  ghost predicate Carries(s: Table, specs: seq<Spec>) {
    forall i | 0 <= i < |specs| ::
      var n := specs[i].servedName; n in s.instances && s.instances[n].spec == specs[i] && s.instances[n].h.desired
  }

  ghost predicate Names(n: string, specs: seq<Spec>) {
    exists i :: 0 <= i < |specs| && specs[i].servedName == n
  }

  lemma StartedEntry(s: Table, spec: Spec, busy: set<int>, launches: bool)
    requires Accepts(s, spec, busy)
    ensures var s1 := StartModel(s, spec, busy, launches);
            && s1.base == s.base && spec.servedName in s1.instances
            && s1.instances == s.instances[spec.servedName := s1.instances[spec.servedName]]
            && s1.instances[spec.servedName].spec == spec && s1.instances[spec.servedName].h.desired
            && s1.instances[spec.servedName].port !in busy
  {
  }

  lemma AddedPort(table: map<string, Entry>, name: string, e: Entry)
    requires name !in table
    ensures UsedPorts(table[name := e]) == UsedPorts(table) + {e.port}
  {
    var all := table[name := e];
    assert all[name].port in UsedPorts(all);
    forall p | p in UsedPorts(table) ensures p in UsedPorts(all) {
      var n :| n in table && table[n].port == p;
      assert all[n].port == p;
    }
  }

  lemma AddedUndisturbed(s: Table, s1: Table, name: string, busy: set<int>)
    requires Undisturbed(s, busy) && name in s1.instances && name !in s.instances
    requires s1.instances == s.instances[name := s1.instances[name]] && s1.instances[name].port !in busy
    ensures Undisturbed(s1, busy) && |s1.instances| == |s.instances| + 1
  {
    AddedPort(s.instances, name, s1.instances[name]);
    assert s1.instances.Keys == s.instances.Keys + {name};
  }

  lemma RoomToStart(s: Table, spec: Spec, busy: set<int>, launches: bool)
    requires WellFormed(s) && Undisturbed(s, busy) && spec.servedName != "" && spec.servedName !in s.instances
    requires |s.instances| < FreePorts(s.base, busy)
    ensures var s1 := StartModel(s, spec, busy, launches);
            && WellFormed(s1) && Undisturbed(s1, busy) && s1.base == s.base
            && |s1.instances| == |s.instances| + 1 && spec.servedName in s1.instances
            && s1.instances == s.instances[spec.servedName := s1.instances[spec.servedName]]
            && s1.instances[spec.servedName].spec == spec && s1.instances[spec.servedName].h.desired
  {
    PortFoundIff(s, busy);
    assert Accepts(s, spec, busy);
    StartKeeps(s, spec, busy, launches);
    StartedEntry(s, spec, busy, launches);
    AddedUndisturbed(s, StartModel(s, spec, busy, launches), spec.servedName, busy);
  }

  lemma NoRoomToStart(s: Table, spec: Spec, busy: set<int>, launches: bool)
    requires WellFormed(s) && Undisturbed(s, busy) && |s.instances| >= FreePorts(s.base, busy)
    ensures StartModel(s, spec, busy, launches) == s
  {
    PortFoundIff(s, busy);
  }

  ghost predicate RestoredFrom(s: Table, s': Table, specs: seq<Spec>) {
    && Carries(s', specs)
    && (forall n | n in s.instances :: n in s'.instances && s'.instances[n] == s.instances[n])
    && (forall n | n in s'.instances :: n in s.instances || Names(n, specs))
  }

  lemma RestoredOneMore(s: Table, s1: Table, s': Table, specs: seq<Spec>)
    requires specs != [] && Added(s, s1, specs[0])
    requires RestoredFrom(s1, s', specs[1..])
    ensures RestoredFrom(s, s', specs)
  {
    assert forall i | 0 < i < |specs| :: specs[i] == specs[1..][i - 1];
    forall n | n in s'.instances ensures n in s.instances || Names(n, specs) {
      if n !in s1.instances {
        var i :| 0 <= i < |specs[1..]| && specs[1..][i].servedName == n;
        assert specs[i + 1].servedName == n;
      } else if n !in s.instances {
        assert specs[0].servedName == n;
      }
    }
  }

  function Min(a: int, b: int): int { if a < b then a else b }

  /** The specs have distinct proper names that the table does not have. */
  ghost predicate NewNames(s: Table, specs: seq<Spec>) {
    && Distinct(specs)
    && forall i | 0 <= i < |specs| :: specs[i].servedName != "" && specs[i].servedName !in s.instances
  }

  lemma NewNamesTail(s: Table, s1: Table, specs: seq<Spec>)
    requires specs != [] && NewNames(s, specs)
    requires forall n | n in s1.instances :: n in s.instances || n == specs[0].servedName
    ensures NewNames(s1, specs[1..])
  {
    assert forall i | 0 <= i < |specs| - 1 :: specs[1..][i] == specs[i + 1];
  }

  lemma {:induction false} RestoreStartsNone(s: Table, specs: seq<Spec>, busy: set<int>, launches: Spec -> bool)
    requires WellFormed(s) && Undisturbed(s, busy) && |s.instances| >= FreePorts(s.base, busy)
    ensures Restore(s, specs, busy, launches) == s
    decreases |specs|
  {
    if specs != [] {
      NoRoomToStart(s, specs[0], busy, launches(specs[0]));
      RestoreStartsNone(s, specs[1..], busy, launches);
    }
  }

  lemma TakeTail(specs: seq<Spec>, k: nat)
    requires 0 < k <= |specs|
    ensures specs[..k][1..] == specs[1..][..k - 1] && specs[..k][0] == specs[0]
  {
  }

  /** There are ports for exactly the first `k` of the specs. */
  ghost predicate Fits(s: Table, specs: seq<Spec>, busy: set<int>, k: nat) {
    && WellFormed(s) && Undisturbed(s, busy) && NewNames(s, specs)
    && |s.instances| <= FreePorts(s.base, busy) && k == Min(|specs|, FreePorts(s.base, busy) - |s.instances|)
  }

  /** `s1` is `s` with the spec's instance added. */
  ghost predicate Added(s: Table, s1: Table, spec: Spec) {
    && spec.servedName in s1.instances && spec.servedName !in s.instances
    && s1.instances == s.instances[spec.servedName := s1.instances[spec.servedName]]
    && s1.instances[spec.servedName].spec == spec && s1.instances[spec.servedName].h.desired
  }

  lemma StartFits(s: Table, specs: seq<Spec>, busy: set<int>, launches: bool, k: nat)
    requires Fits(s, specs, busy, k) && k > 0
    ensures var s1 := StartModel(s, specs[0], busy, launches);
            Added(s, s1, specs[0]) && Fits(s1, specs[1..], busy, k - 1)
  {
    RoomToStart(s, specs[0], busy, launches);
    NewNamesTail(s, StartModel(s, specs[0], busy, launches), specs);
  }

  lemma RestoreStartsNothing(s: Table, specs: seq<Spec>, busy: set<int>, launches: Spec -> bool)
    requires Fits(s, specs, busy, 0)
    ensures Restore(s, specs, busy, launches) == s && RestoredFrom(s, s, specs[..0])
  {
    if specs != [] { RestoreStartsNone(s, specs, busy, launches); }
  }

  lemma RestoredAfterFirst(s: Table, s1: Table, s': Table, specs: seq<Spec>, k: nat)
    requires 0 < k <= |specs| && Added(s, s1, specs[0]) && RestoredFrom(s1, s', specs[1..][..k - 1])
    ensures RestoredFrom(s, s', specs[..k])
  {
    TakeTail(specs, k);
    RestoredOneMore(s, s1, s', specs[..k]);
  }

  /** Restoring a list of distinct specs into a table that has none of them starts as many of the
      first ones as there are free ports, keeps what was there, and adds nothing else. */
  lemma {:induction false} RestoreStartsFirst(s: Table, specs: seq<Spec>, busy: set<int>, launches: Spec -> bool, k: nat)
    requires Fits(s, specs, busy, k)
    ensures WellFormed(Restore(s, specs, busy, launches))
    ensures RestoredFrom(s, Restore(s, specs, busy, launches), specs[..k])
    decreases |specs|
  {
    if k == 0 {
      RestoreStartsNothing(s, specs, busy, launches);
    } else {
      var s1 := StartModel(s, specs[0], busy, launches(specs[0]));
      StartFits(s, specs, busy, launches(specs[0]), k);
      RestoreStartsFirst(s1, specs[1..], busy, launches, k - 1);
      RestoredAfterFirst(s, s1, Restore(s1, specs[1..], busy, launches), specs, k);
    }
  }

  /** The table has exactly the wanted models, all desired. */
  ghost predicate Revives(s: Table, w: map<string, Spec>) {
    s.instances.Keys == w.Keys && forall n | n in w :: s.instances[n].spec == w[n] && s.instances[n].h.desired
  }

  /** The file lists exactly the wanted specs. */
  ghost predicate FileLists(d: Option<set<Spec>>, w: map<string, Spec>) {
    forall x :: (d.Some? && x in d.value) <==> (x.servedName in w && w[x.servedName] == x)
  }

  /** `order` is the file's list, in any order. */
  ghost predicate ListsFile(order: seq<Spec>, d: Option<set<Spec>>) {
    && (forall x :: x in order <==> d.Some? && x in d.value)
    && (forall i, j | 0 <= i < j < |order| :: order[i] != order[j])
  }

  /** `names` are the instances, in any order. */
  ghost predicate ListsInstances(names: seq<string>, s: Table) {
    (forall n :: n in names <==> n in s.instances) && (s.instances.Keys == {} ==> names == [])
  }

  lemma SavedIsWanted(s: Table, w: map<string, Spec>)
    requires Named(s) && Tracks(s, w)
    ensures FileLists(Some(Desired(s.instances)), w)
  {
    forall x ensures x in Desired(s.instances) <==> (x.servedName in w && w[x.servedName] == x) {
      if x in Desired(s.instances) {
        var n :| n in s.instances && s.instances[n].h.desired && s.instances[n].spec == x;
      }
      if x.servedName in w && w[x.servedName] == x {
        assert s.instances[x.servedName].spec == x;
      }
    }
  }

  lemma StopKeepsWanted(s: Table, w: map<string, Spec>, name: string)
    requires WellFormed(s) && Tracks(s, w)
    ensures WellFormed(StopModel(s, name, false)) && Tracks(StopModel(s, name, false), w)
    ensures name in s.instances && !Hangs(s.instances[name]) ==>
              StopModel(s, name, false).disk == Some(Desired(StopModel(s, name, false).instances))
  {
    StopKeeps(s, name, false);
  }

  /** Shutting down keeps a right file right. */
  lemma {:induction false} ShutdownKeepsFile(s: Table, w: map<string, Spec>, names: seq<string>)
    requires WellFormed(s) && Tracks(s, w) && FileLists(s.disk, w)
    ensures FileLists(StopEverything(s, names).disk, w)
    decreases |names|
  {
    if names != [] {
      var s1 := StopModel(s, names[0], false);
      StopKeepsWanted(s, w, names[0]);
      SavedIsWanted(s1, w);
      if !(names[0] in s.instances && Hangs(s.instances[names[0]])) { ShutdownKeepsFile(s1, w, names[1..]); }
    }
  }

  /** After a shutdown the file lists exactly the wanted specs if and only if it did before, or the
      first stop returns. */
  lemma FileIsWantedIff(s: Table, w: map<string, Spec>, names: seq<string>)
    requires WellFormed(s) && Tracks(s, w) && ListsInstances(names, s)
    ensures FileLists(StopEverything(s, names).disk, w)
       <==> FileLists(s.disk, w) || (names != [] && !Hangs(s.instances[names[0]]))
  {
    if FileLists(s.disk, w) {
      ShutdownKeepsFile(s, w, names);
    } else if names != [] && !Hangs(s.instances[names[0]]) {
      var s1 := StopModel(s, names[0], false);
      StopKeepsWanted(s, w, names[0]);
      SavedIsWanted(s1, w);
      ShutdownKeepsFile(s1, w, names[1..]);
    }
  }

  lemma {:induction false} ShutdownKeepsNames(s: Table, names: seq<string>)
    requires WellFormed(s)
    ensures FileNamed(StopEverything(s, names).disk)
    decreases |names|
  {
    if names != [] {
      StopKeeps(s, names[0], false);
      if !(names[0] in s.instances && Hangs(s.instances[names[0]])) {
        ShutdownKeepsNames(StopModel(s, names[0], false), names[1..]);
      }
    }
  }

  /** For every run of commands and an agent shutdown, a fresh supervisor over the same state file comes
      up with exactly the models whose last accepted command was Start, whatever order the file lists
      them in and whichever of them then fail to launch. It does so, where the file is right, exactly
      when the other programs leave it enough ports; and where there are ports for the whole file,
      exactly when the file was right before or the shutdown's first stop returns. */
  lemma RestartRestoresWanted(base: int, cs: seq<Command>, names: seq<string>, order: seq<Spec>, busy: set<int>, launches: Spec -> bool)
    requires var s := Run(Table(base, map[], None), cs);
             ListsInstances(names, s) && ListsFile(order, StopEverything(s, names).disk)
    ensures Restarts(Run(Table(base, map[], None), cs), Wanted(Table(base, map[], None), map[], cs), names, |order|,
                     Restore(Table(base, map[], None), order, busy, launches), FreePorts(base, busy))
  {
    var s0 := Table(base, map[], None);
    RunKeeps(s0, map[], cs);
    RestartFrom(Run(s0, cs), Wanted(s0, map[], cs), names, order, busy, launches);
  }

  /** The file after a shutdown from `s` is right. */
  ghost predicate FileRight(s: Table, w: map<string, Spec>, names: seq<string>)
    requires ListsInstances(names, s)
  {
    FileLists(s.disk, w) || (names != [] && !Hangs(s.instances[names[0]]))
  }

  /** What restoring the `listed` specs of the file after a shutdown from `s` leads to, with `ports`
      ports left by other programs. */
  ghost predicate Restarts(s: Table, w: map<string, Spec>, names: seq<string>, listed: nat, s': Table, ports: nat)
    requires ListsInstances(names, s)
  {
    && (FileRight(s, w, names) ==> (Revives(s', w) <==> |w| <= ports))
    && (listed <= ports ==> (Revives(s', w) <==> FileRight(s, w, names)))
    && |w| <= PORT_RANGE && PortsDistinct(s')
  }

  lemma RestartFrom(s: Table, w: map<string, Spec>, names: seq<string>, order: seq<Spec>, busy: set<int>, launches: Spec -> bool)
    requires WellFormed(s) && Tracks(s, w)
    requires ListsInstances(names, s) && ListsFile(order, StopEverything(s, names).disk)
    ensures Restarts(s, w, names, |order|, Restore(Table(s.base, map[], None), order, busy, launches), FreePorts(s.base, busy))
  {
    var d := StopEverything(s, names).disk;
    FileIsWantedIff(s, w, names);
    ShutdownKeepsNames(s, names);
    FileIsDistinct(order, d);
    WantedFits(s, w);
    RestoresFile(s.base, w, order, busy, launches);
    EnumeratesIff(w, order, d);
  }

  lemma EnumeratesIff(w: map<string, Spec>, order: seq<Spec>, d: Option<set<Spec>>)
    requires ListsFile(order, d) && forall n | n in w :: w[n].servedName == n && n != ""
    ensures FileLists(d, w) <==> Enumerates(w, order)
  {
  }

  lemma FileIsDistinct(order: seq<Spec>, d: Option<set<Spec>>)
    requires ListsFile(order, d) && FileNamed(d)
    ensures Distinct(order) && forall i | 0 <= i < |order| :: order[i].servedName != ""
  {
    forall i | 0 <= i < |order| ensures d.Some? && order[i] in d.value { assert order[i] in order; }
  }

  lemma WantedFits(s: Table, w: map<string, Spec>)
    requires WellFormed(s) && Tracks(s, w)
    ensures |w| <= PORT_RANGE && forall n | n in w :: w[n].servedName == n && n != ""
  {
    AtMostRange(s);
    assert w.Keys <= s.instances.Keys;
    SubsetSize(w.Keys, s.instances.Keys);
  }

  lemma RestoresFile(base: int, w: map<string, Spec>, order: seq<Spec>, busy: set<int>, launches: Spec -> bool)
    requires Distinct(order) && (forall i | 0 <= i < |order| :: order[i].servedName != "")
    requires forall n | n in w :: w[n].servedName == n && n != ""
    ensures var s' := Restore(Table(base, map[], None), order, busy, launches);
            && PortsDistinct(s')
            && (Enumerates(w, order) ==> (Revives(s', w) <==> |w| <= FreePorts(base, busy)))
            && (|order| <= FreePorts(base, busy) ==> (Revives(s', w) <==> Enumerates(w, order)))
  {
    var s0, k := Table(base, map[], None), Min(|order|, FreePorts(base, busy));
    var s' := Restore(s0, order, busy, launches);
    RestoreStartsFirst(s0, order, busy, launches, k);
    if Enumerates(w, order) {
      OrderCounts(w, order);
      RevivesIff(w, order, s', k);
    } else if k == |order| && Revives(s', w) {
      assert order[..k] == order;
      RevivedIsListed(w, order, s');
    }
  }

  lemma RevivedIsListed(w: map<string, Spec>, order: seq<Spec>, s: Table)
    requires Carries(s, order) && (forall n | n in s.instances :: Names(n, order)) && Revives(s, w)
    requires forall n | n in w :: w[n].servedName == n && n != ""
    ensures Enumerates(w, order)
  {
    forall x ensures x in order <==> x.servedName in w && w[x.servedName] == x {
      if x in order {
        var i :| 0 <= i < |order| && order[i] == x;
        assert x.servedName in s.instances;
      }
      if x.servedName in w && w[x.servedName] == x {
        var i :| 0 <= i < |order| && order[i].servedName == x.servedName;
        assert order[i] in order && s.instances[x.servedName].spec == order[i];
      }
    }
  }

  /** A model stopped while its stop hangs comes back: its relaunch had failed, the stop never saved,
      and neither does the shutdown. */
  lemma HungStopComesBack(base: int, spec: Spec)
    requires spec.servedName != ""
    ensures var h := FreshInstance().(state := Failed, restarts := 1, cmd := Some(0), exited := 1, made := 2, closed := {0});
            var cs := [Start(spec, {}, true), Goroutine(spec.servedName, h, false, true), Stop(spec.servedName)];
            var s, w := Run(Table(base, map[], None), cs), Wanted(Table(base, map[], None), map[], cs);
            && w == map[] && ListsInstances([spec.servedName], s)
            && StopEverything(s, [spec.servedName]).disk == Some({spec})
  {
    var n := spec.servedName;
    var h := FreshInstance().(state := Failed, restarts := 1, cmd := Some(0), exited := 1, made := 2, closed := {0});
    var s0 := Table(base, map[], None);
    var c1, c2, c3 := Start(spec, {}, true), Goroutine(n, h, false, true), Stop(n);
    var s1 := StartOnEmpty(base, spec);
    var s2 := Apply(s1, c2);
    var s3 := Apply(s2, c3);
    assert Desired(s2.instances) == {spec};
    assert [c1, c2, c3][1..] == [c2, c3] && [c2, c3][1..] == [c3] && [c3][1..] == [];
    assert Run(s0, [c1, c2, c3]) == Run(s1, [c2, c3]) == Run(s2, [c3]) == Run(s3, []) == s3;
    var w1: map<string, Spec> := map[n := spec];
    assert Wanted(s0, map[], [c1, c2, c3]) == Wanted(s1, w1, [c2, c3]);
    assert Wanted(s1, w1, [c2, c3]) == Wanted(s2, w1, [c3]) == Wanted(s3, w1 - {n}, []) == w1 - {n};
    assert w1 - {n} == map[];
  }

  lemma StartOnEmpty(base: int, spec: Spec) returns (s1: Table)
    requires spec.servedName != ""
    ensures s1 == Apply(Table(base, map[], None), Start(spec, {}, true))
    ensures Accepts(Table(base, map[], None), spec, {})
    ensures s1.instances.Keys == {spec.servedName} && s1.instances[spec.servedName].spec == spec
    ensures s1.instances[spec.servedName].h == FreshInstance()
  {
    s1 := Apply(Table(base, map[], None), Start(spec, {}, true));
    assert FreePort(base, base + PORT_RANGE, {}) == Some(base);
    assert UsedPorts(map[]) + {} == {};
  }

  lemma AllFree(base: int)
    ensures FreePorts(base, {}) == PORT_RANGE
  {
    assert Ports(base, PORT_RANGE) - {} == Ports(base, PORT_RANGE);
  }

  lemma RevivesIff(w: map<string, Spec>, order: seq<Spec>, s: Table, k: nat)
    requires Enumerates(w, order) && Distinct(order) && k <= |order| && Carries(s, order[..k])
    requires forall n | n in s.instances :: Names(n, order[..k])
    ensures Revives(s, w) <==> k == |order|
  {
    if k == |order| {
      assert order[..k] == order;
      SameModels(w, order, s);
    } else {
      var n := order[k].servedName;
      assert order[k] in order;
      assert !Names(n, order[..k]);
      assert n in w && n !in s.instances;
    }
  }

  lemma OrderCounts(w: map<string, Spec>, order: seq<Spec>)
    requires Enumerates(w, order) && Distinct(order)
    ensures |order| == |w|
  {
    var names := set i | 0 <= i < |order| :: order[i].servedName;
    NameCount(order);
    forall n ensures n in names <==> n in w.Keys {
      if n in w { assert w[n] in order; }
      if n in names {
        var i :| 0 <= i < |order| && order[i].servedName == n;
        assert order[i] in order;
      }
    }
    assert names == w.Keys;
  }

  /** `order` enumerates the specs of `w`. */
  ghost predicate Enumerates(w: map<string, Spec>, order: seq<Spec>) {
    && (forall x :: x in order <==> x.servedName in w && w[x.servedName] == x)
    && (forall n | n in w :: w[n].servedName == n && n != "")
  }

  lemma SameModels(w: map<string, Spec>, order: seq<Spec>, s: Table)
    requires Enumerates(w, order) && Carries(s, order)
    requires forall n | n in s.instances :: Names(n, order)
    ensures s.instances.Keys == w.Keys
    ensures forall n | n in w :: s.instances[n].spec == w[n] && s.instances[n].h.desired
  {
    forall n | n in w ensures n in s.instances && s.instances[n].spec == w[n] && s.instances[n].h.desired {
      assert w[n] in order;
    }
    forall n | n in s.instances ensures n in w {
      var i :| 0 <= i < |order| && order[i].servedName == n;
      assert order[i] in order;
    }
  }

  lemma NameCount(order: seq<Spec>)
    requires Distinct(order)
    ensures |set i | 0 <= i < |order| :: order[i].servedName| == |order|
    decreases |order|
  {
    if order != [] {
      var front := order[..|order| - 1];
      NameCount(front);
      var last := order[|order| - 1].servedName;
      var a := set i | 0 <= i < |order| :: order[i].servedName;
      var b := set i | 0 <= i < |front| :: front[i].servedName;
      assert forall i | 0 <= i < |front| :: front[i] == order[i];
      assert a == b + {last};
      assert last !in b;
    }
  }

  // ---------------------------------------------------------------------------
  // The object
  // ---------------------------------------------------------------------------

  /** The supervisor: its table of instances and its state file. */
  class EngineSupervisor {
    const portBase: int
    var instances: map<string, Entry>
    var file: Option<seq<Spec>>

    ghost function View(): Table
      reads this
    {
      Table(portBase, instances, if file.None? then None else Some(set x | x in file.value))
    }

    constructor (portBase: int, file: Option<seq<Spec>>)
      ensures this.portBase == (if portBase <= 0 then 18000 else portBase)
      ensures instances == map[] && this.file == file
    {
      this.portBase := if portBase <= 0 then 18000 else portBase;
      this.instances := map[];
      this.file := file;
    }

    /** The lowest port at or above the base that no instance has and no other program holds. */
    method AllocatePort(busy: set<int>) returns (r: Option<int>)
      ensures r == FreePort(portBase, portBase + PORT_RANGE, UsedPorts(instances) + busy)
    {
      var used := UsedPorts(instances);
      var p := portBase;
      while p < portBase + PORT_RANGE
        invariant portBase <= p <= portBase + PORT_RANGE
        invariant FreePort(portBase, portBase + PORT_RANGE, used + busy) == FreePort(p, portBase + PORT_RANGE, used + busy)
      {
        if p !in used && p !in busy {
          return Some(p);
        }
        p := p + 1;
      }
      return None;
    }

    /** Write the specs of the models that should be running. */
    method Save()
      modifies this`file
      ensures View() == Persisted(old(View()))
    {
      var specs: seq<Spec> := [];
      var rest := instances.Keys;
      while rest != {}
        invariant rest <= instances.Keys
        invariant forall x :: x in specs <==> exists n :: n in instances.Keys - rest && instances[n].h.desired && instances[n].spec == x
        decreases rest
      {
        var n :| n in rest;
        if instances[n].h.desired {
          specs := specs + [instances[n].spec];
        }
        rest := rest - {n};
      }
      assert (set x | x in specs) == Desired(instances);
      file := Some(specs);
    }

    method Start(spec: Spec, busy: set<int>, launches: bool) returns (accepted: bool)
      modifies this
      ensures View() == StartModel(old(View()), spec, busy, launches)
      ensures accepted == old(Accepts(View(), spec, busy))
    {
      if spec.servedName == "" {
        return false;
      }
      if spec.servedName in instances {
        var st := instances[spec.servedName].h.state;
        if st == Ready || st == Starting {
          return false;
        }
      }
      var port := AllocatePort(busy);
      if port.None? {
        return false;
      }
      accepted := true;
      instances := instances[spec.servedName := Entry(spec, port.value, FreshInstance(), launches)];
      if !launches {
        instances := instances[spec.servedName := instances[spec.servedName].(h := SetState(FreshInstance(), Failed))];
        return;
      }
      Save();
    }

    /** `returned` is false for a stop that blocks for ever. */
    method Stop(name: string, clearDesired: bool) returns (found: bool, returned: bool)
      modifies this
      ensures View() == StopModel(old(View()), name, clearDesired)
      ensures found == (name in old(instances))
      ensures returned == !(found && Hangs(old(instances)[name]))
    {
      if name !in instances {
        return false, true;
      }
      var e := instances[name];
      instances := instances[name := Flagged(e, clearDesired)];
      if e.h.cmd.Some? && e.h.exited !in e.h.closed && !e.attended {
        return true, false;
      }
      instances := instances[name := Halted(e, clearDesired)];
      assert instances == old(instances)[name := Halted(e, clearDesired)];
      Save();
      return true, true;
    }

    method Remove(name: string) returns (found: bool, returned: bool)
      modifies this
      ensures View() == RemoveModel(old(View()), name)
      ensures found == (name in old(instances)) && (returned ==> name !in instances)
      ensures returned == !(found && Hangs(old(instances)[name]))
    {
      found, returned := Stop(name, true);
      if !found || !returned {
        return;
      }
      instances := instances - {name};
      Save();
    }

    /** Shut the engines down without clearing what should be running. */
    method StopAll(names: seq<string>) returns (returned: bool)
      modifies this
      ensures View() == StopEverything(old(View()), names)
    {
      var i := 0;
      returned := true;
      while i < |names|
        invariant 0 <= i <= |names| && returned
        invariant StopEverything(View(), names[i..]) == StopEverything(old(View()), names)
      {
        assert names[i..][1..] == names[i + 1..];
        var _, back := Stop(names[i], false);
        if !back {
          return false;
        }
        i := i + 1;
      }
    }

    /** Start every model the state file lists. */
    method RestoreAll(busy: set<int>, launches: Spec -> bool)
      modifies this
      ensures View() == old(if file.None? then View() else Restore(View(), file.value, busy, launches))
    {
      if file.None? {
        return;
      }
      var specs := file.value;
      var i := 0;
      while i < |specs|
        invariant 0 <= i <= |specs|
        invariant old(Restore(View(), specs, busy, launches)) == Restore(View(), specs[i..], busy, launches)
      {
        var _ := Start(specs[i], busy, launches(specs[i]));
        i := i + 1;
      }
    }
  }
}
