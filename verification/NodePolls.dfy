/**
 The gateway's polling of its inference nodes: each answer mirrors the node's ready engines into
 the routing pool, each failure may drop them. Times are in seconds.
 */
module NodePolls {
  import opened Options
  import opened Routing
  import Supervisor

  const GRACE := 90

  datatype Running = Running(servedName: string, port: nat, state: Supervisor.Status, maxNumSeqs: int)

  /** A configured node. `host` is None when its URL has no usable host. */
  datatype NodeConf = NodeConf(host: Option<string>, maxConc: int, weight: int)

  datatype Answer = Unreachable | Info(instances: seq<Running>)

  /** The smaller of two limits, where a limit that is not positive is not declared. */
  function MinPositive(a: int, b: int): (r: int)
    ensures r == a || r == b
    ensures a > 0 || b > 0 ==> r > 0 && (a > 0 ==> r <= a) && (b > 0 ==> r <= b)
  {
    if a <= 0 then b else if b <= 0 then a else if a < b then a else b
  }

  predicate IsDigits(s: string) {
    s != "" && forall i | 0 <= i < |s| :: '0' <= s[i] <= '9'
  }

  function NumberOf(s: string): nat
    requires forall i | 0 <= i < |s| :: '0' <= s[i] <= '9'
  {
    if s == "" then 0 else NumberOf(s[..|s| - 1]) * 10 + (s[|s| - 1] - '0') as nat
  }

  /** The decimal notation of a number. */
  function Digits(n: nat): (s: string)
    ensures IsDigits(s) && NumberOf(s) == n
  {
    if n < 10 then [(n as char) + '0']
    else
      var front := Digits(n / 10);
      var s := front + [((n % 10) as char) + '0'];
      assert s[..|s| - 1] == front;
      s
  }

  function Url(host: string, port: nat): (u: string)
    ensures u != "" && u[|u| - 1] != '/'
  {
    "http://" + host + ":" + Digits(port) + "/v1"
  }

  function EngineOf(c: NodeConf, r: Running): Engine
    requires c.host.Some?
  {
    Engine(r.servedName, Url(c.host.value, r.port), MinPositive(c.maxConc, r.maxNumSeqs), c.weight)
  }

  /** The engines of the ready instances, in the report's order. */
  function Collected(rs: seq<Running>, f: Running -> Engine): seq<Engine> {
    if rs == [] then []
    else
      var n := |rs| - 1;
      Collected(rs[..n], f) + if rs[n].state != Supervisor.Ready then [] else [f(rs[n])]
  }

  /** The engines to route to: those whose state is ready, at the node's host. */
  function ReadyEngines(c: NodeConf, rs: seq<Running>): seq<Engine>
    requires c.host.Some?
  {
    Collected(rs, r => EngineOf(c, r))
  }

  /** The number of ready instances among the first `i` of a report. */
  function ReadyAmong(rs: seq<Running>, i: nat): (n: nat)
    requires i <= |rs|
    ensures n <= i
  {
    if i == 0 then 0 else ReadyAmong(rs, i - 1) + if rs[i - 1].state == Supervisor.Ready then 1 else 0
  }

  lemma {:induction false} ReadyAmongPrefix(rs: seq<Running>, n: nat, i: nat)
    requires i <= n <= |rs|
    ensures ReadyAmong(rs[..n], i) == ReadyAmong(rs, i)
    decreases i
  {
    if i > 0 { ReadyAmongPrefix(rs, n, i - 1); }
  }

  /** The engine of an instance: its served name, the address built from the node's host and its port,
      the smaller of the declared limits, and the node's weight. */
  ghost predicate IsEngineOf(c: NodeConf, r: Running, e: Engine)
    requires c.host.Some?
  {
    && e.model == r.servedName
    && e.baseURL == "http://" + c.host.value + ":" + Digits(r.port) + "/v1"
    && (e.maxConc == c.maxConc || e.maxConc == r.maxNumSeqs)
    && (c.maxConc > 0 ==> 0 < e.maxConc <= c.maxConc)
    && (r.maxNumSeqs > 0 ==> 0 < e.maxConc <= r.maxNumSeqs)
    && e.weight == c.weight
  }

  /** A report is mirrored: its ready instances and no others, one engine each, in the report's order. */
  ghost predicate Mirrors(c: NodeConf, rs: seq<Running>, es: seq<Engine>)
    requires c.host.Some?
  {
    && |es| == ReadyAmong(rs, |rs|)
    && forall i: nat | i < |rs| && rs[i].state == Supervisor.Ready ::
         ReadyAmong(rs, i) < |es| && IsEngineOf(c, rs[i], es[ReadyAmong(rs, i)])
  }

  lemma {:induction false} CollectedAt(rs: seq<Running>, f: Running -> Engine)
    ensures |Collected(rs, f)| == ReadyAmong(rs, |rs|)
    ensures forall i: nat | i < |rs| && rs[i].state == Supervisor.Ready ::
              ReadyAmong(rs, i) < |Collected(rs, f)| && Collected(rs, f)[ReadyAmong(rs, i)] == f(rs[i])
    decreases |rs|
  {
    if rs != [] {
      var n := |rs| - 1;
      CollectedAt(rs[..n], f);
      ReadyAmongPrefix(rs, n, n);
      forall i: nat | i < |rs| && rs[i].state == Supervisor.Ready
        ensures ReadyAmong(rs, i) < |Collected(rs, f)| && Collected(rs, f)[ReadyAmong(rs, i)] == f(rs[i])
      {
        ReadyAmongPrefix(rs, n, i);
        if i < n { assert rs[..n][i] == rs[i]; }
      }
    }
  }

  lemma ReadyEngineAt(c: NodeConf, rs: seq<Running>, i: nat)
    requires c.host.Some? && i < |rs| && rs[i].state == Supervisor.Ready
    ensures ReadyAmong(rs, i) < |ReadyEngines(c, rs)| && ReadyEngines(c, rs)[ReadyAmong(rs, i)] == EngineOf(c, rs[i])
  {
    CollectedAt(rs, r => EngineOf(c, r));
  }

  lemma ReadyAreMirrored(c: NodeConf, rs: seq<Running>)
    requires c.host.Some?
    ensures Mirrors(c, rs, ReadyEngines(c, rs))
  {
    CollectedAt(rs, r => EngineOf(c, r));
    forall i: nat | i < |rs| && rs[i].state == Supervisor.Ready
      ensures ReadyAmong(rs, i) < |ReadyEngines(c, rs)| && IsEngineOf(c, rs[i], ReadyEngines(c, rs)[ReadyAmong(rs, i)])
    {
      ReadyEngineAt(c, rs, i);
    }
  }

  /** The loop over a report. */
  method CollectReady(c: NodeConf, rs: seq<Running>) returns (es: seq<Engine>)
    requires c.host.Some?
    ensures es == ReadyEngines(c, rs) && Mirrors(c, rs, es)
  {
    es := [];
    for i := 0 to |rs|
      invariant es == ReadyEngines(c, rs[..i])
    {
      assert rs[..i + 1][..i] == rs[..i];
      if rs[i].state != Supervisor.Ready {
        continue;
      }
      es := es + [EngineOf(c, rs[i])];
    }
    assert rs[..|rs|] == rs;
    ReadyAreMirrored(c, rs);
  }

  /** A node's last successful answer and when it came, the time of its last poll, and its engines in
      the routing pool. */
  datatype Status = Status(seen: Option<int>, info: seq<Running>, polled: int, routed: Option<seq<Engine>>)

  function Poll(c: NodeConf, s: Status, a: Answer, now: int): Status {
    match a
    case Unreachable =>
      var s1 := s.(polled := now);
      if s.seen.None? || now - s.seen.value > GRACE then s1.(routed := None) else s1
    case Info(rs) =>
      var s1 := s.(seen := Some(now), info := rs, polled := now);
      if c.host.None? then s1 else s1.(routed := Some(ReadyEngines(c, rs)))
  }

  type Event = (string, Answer, int)

  function NeverPolled(): Status {
    Status(None, [], 0, None)
  }

  /** The statuses after a run of polls, in any order over the nodes. */
  function Run(conf: map<string, NodeConf>, st: map<string, Status>, es: seq<Event>): map<string, Status>
    requires conf.Keys == st.Keys && forall i | 0 <= i < |es| :: es[i].0 in conf
    decreases |es|
  {
    if es == [] then st
    else
      var (n, a, now) := es[0];
      Run(conf, st[n := Poll(conf[n], st[n], a, now)], es[1..])
  }

  /** What is routed to a node is the ready engines of its last successful answer, or nothing, and
      only while that answer is no more than the grace period older than the last poll. */
  ghost predicate Faithful(c: NodeConf, s: Status) {
    s.routed.Some? ==>
      && c.host.Some? && s.seen.Some?
      && s.routed.value == ReadyEngines(c, s.info)
      && s.polled - s.seen.value <= GRACE
  }

  lemma {:induction false} RoutedIsLastGoodAnswer(conf: map<string, NodeConf>, st: map<string, Status>, es: seq<Event>)
    requires conf.Keys == st.Keys && forall i | 0 <= i < |es| :: es[i].0 in conf
    requires forall n | n in conf :: Faithful(conf[n], st[n])
    ensures var st' := Run(conf, st, es); st'.Keys == conf.Keys && forall n | n in conf :: Faithful(conf[n], st'[n])
    decreases |es|
  {
    if es != [] {
      var (n, a, now) := es[0];
      RoutedIsLastGoodAnswer(conf, st[n := Poll(conf[n], st[n], a, now)], es[1..]);
    }
  }

  lemma {:induction false} RunLast(conf: map<string, NodeConf>, st: map<string, Status>, es: seq<Event>)
    requires conf.Keys == st.Keys && es != [] && forall i | 0 <= i < |es| :: es[i].0 in conf
    ensures var n, was := |es| - 1, Run(conf, st, es[..|es| - 1]);
            was.Keys == conf.Keys && Run(conf, st, es) == was[es[n].0 := Poll(conf[es[n].0], was[es[n].0], es[n].1, es[n].2)]
    decreases |es|
  {
    var n := |es| - 1;
    var (m, a, now) := es[0];
    var st1 := st[m := Poll(conf[m], st[m], a, now)];
    if n > 0 {
      RunLast(conf, st1, es[1..]);
      assert es[1..][..n - 1] == es[..n][1..];
    } else {
      assert es[1..] == [] && es[..0] == [];
    }
  }

  /** Event `i` is the last successful answer of node `n`. */
  ghost predicate LastGood(es: seq<Event>, n: string, i: nat) {
    && i < |es| && es[i].0 == n && es[i].1.Info?
    && forall j | i < j < |es| && es[j].0 == n :: es[j].1.Unreachable?
  }

  /** And no poll of the node since has come later than the grace period. */
  ghost predicate StillGood(es: seq<Event>, n: string, i: nat) {
    LastGood(es, n, i) && forall j | i < j < |es| && es[j].0 == n :: es[j].2 - es[i].2 <= GRACE
  }

  /** The status tells the history of the node's polls. */
  ghost predicate Tells(c: NodeConf, s: Status, es: seq<Event>, n: string) {
    && (s.seen.Some? <==> exists i: nat :: LastGood(es, n, i))
    && (forall i: nat | LastGood(es, n, i) :: s.seen == Some(es[i].2) && s.info == es[i].1.instances)
    && (s.routed.Some? <==> c.host.Some? && exists i: nat :: StillGood(es, n, i))
  }

  lemma OtherPollTells(c: NodeConf, s: Status, es: seq<Event>, n: string)
    requires es != [] && es[|es| - 1].0 != n && Tells(c, s, es[..|es| - 1], n)
    ensures Tells(c, s, es, n)
  {
    var es0 := es[..|es| - 1];
    forall i: nat ensures LastGood(es0, n, i) == LastGood(es, n, i) && StillGood(es0, n, i) == StillGood(es, n, i) {
      assert forall j | 0 <= j < |es0| :: es0[j] == es[j];
    }
  }

  lemma GoodPollTells(c: NodeConf, s: Status, es: seq<Event>, n: string)
    requires es != [] && es[|es| - 1].0 == n && es[|es| - 1].1.Info? && Tells(c, s, es[..|es| - 1], n)
    ensures Tells(c, Poll(c, s, es[|es| - 1].1, es[|es| - 1].2), es, n)
  {
    var k := |es| - 1;
    assert LastGood(es, n, k) && StillGood(es, n, k);
    assert forall i: nat :: LastGood(es, n, i) ==> i == k;
  }

  lemma MissedPollTells(c: NodeConf, s: Status, es: seq<Event>, n: string)
    requires es != [] && es[|es| - 1].0 == n && es[|es| - 1].1.Unreachable? && Tells(c, s, es[..|es| - 1], n)
    ensures Tells(c, Poll(c, s, es[|es| - 1].1, es[|es| - 1].2), es, n)
  {
    var es0, t := es[..|es| - 1], es[|es| - 1].2;
    assert forall j | 0 <= j < |es0| :: es0[j] == es[j];
    forall i: nat ensures LastGood(es0, n, i) == LastGood(es, n, i) {
    }
    forall i: nat ensures StillGood(es, n, i) == (StillGood(es0, n, i) && t - es[i].2 <= GRACE) {
    }
    if i: nat :| LastGood(es, n, i) {
      assert forall k: nat :: LastGood(es, n, k) ==> k == i;
      assert s.seen == Some(es[i].2);
    }
  }

  /** Over every run of polls, a node's engines are routed to exactly when its host is usable, it has
      answered, and none of the polls it has missed since came later than the grace period after that. */
  lemma {:induction false} RoutedIff(conf: map<string, NodeConf>, es: seq<Event>, n: string)
    requires n in conf && forall i | 0 <= i < |es| :: es[i].0 in conf
    ensures var st := map m | m in conf :: NeverPolled();
            n in Run(conf, st, es) && Tells(conf[n], Run(conf, st, es)[n], es, n)
    decreases |es|
  {
    var st := map m | m in conf :: NeverPolled();
    if es != [] {
      var k := |es| - 1;
      RoutedIff(conf, es[..k], n);
      RunLast(conf, st, es);
      var s := Run(conf, st, es[..k])[n];
      if es[k].0 != n {
        OtherPollTells(conf[n], s, es, n);
      } else if es[k].1.Info? {
        GoodPollTells(conf[n], s, es, n);
      } else {
        MissedPollTells(conf[n], s, es, n);
      }
    }
  }

  /** A node's status depends on its own polls only. */
  lemma {:induction false} NodesAreIndependent(conf: map<string, NodeConf>, st: map<string, Status>, es: seq<Event>, n: string)
    requires conf.Keys == st.Keys && n in conf && forall i | 0 <= i < |es| :: es[i].0 in conf
    requires forall i | 0 <= i < |es| :: es[i].0 != n
    ensures n in Run(conf, st, es) && Run(conf, st, es)[n] == st[n]
    decreases |es|
  {
    if es != [] {
      var (m, a, now) := es[0];
      NodesAreIndependent(conf, st[m := Poll(conf[m], st[m], a, now)], es[1..], n);
    }
  }

  ghost predicate DistinctNames(rs: seq<Running>) {
    forall i, j | 0 <= i < j < |rs| :: rs[i].servedName != rs[j].servedName
  }

  ghost predicate NamesReady(rs: seq<Running>, name: string) {
    exists i :: 0 <= i < |rs| && rs[i].state == Supervisor.Ready && rs[i].servedName == name
  }

  /** Every engine routed to is a ready one, and distinct served names stay distinct models. */
  lemma {:induction false} ReadyAreDistinct(c: NodeConf, rs: seq<Running>)
    requires c.host.Some? && DistinctNames(rs)
    ensures DistinctModels(ReadyEngines(c, rs))
    ensures forall k | 0 <= k < |ReadyEngines(c, rs)| :: NamesReady(rs, ReadyEngines(c, rs)[k].model)
    decreases |rs|
  {
    if rs != [] {
      var n := |rs| - 1;
      var front := ReadyEngines(c, rs[..n]);
      ReadyAreDistinct(c, rs[..n]);
      forall k | 0 <= k < |front| ensures NamesReady(rs, front[k].model) && front[k].model != rs[n].servedName {
        assert NamesReady(rs[..n], front[k].model);
        var i :| 0 <= i < |rs[..n]| && rs[..n][i].state == Supervisor.Ready && rs[..n][i].servedName == front[k].model;
        assert rs[i] == rs[..n][i];
      }
    }
  }

  /** The pool's node table holds, for each node, the keys of the engines routed to it. */
  ghost predicate InStep(conf: map<string, NodeConf>, status: map<string, Status>, byNode: map<string, seq<string>>) {
    && status.Keys == conf.Keys
    && (forall n | n in conf :: Faithful(conf[n], status[n]))
    && Listed(status, byNode)
  }

  /** The engine is in the pool at its address and with its limit. */
  ghost predicate Routes(o: Objects, n: string, e: Engine) {
    && Key(n, e.model) in o.dynamic && o.dynamic[Key(n, e.model)] < |o.made|
    && var b := o.made[o.dynamic[Key(n, e.model)]];
       b.baseURL == TrimSlash(e.baseURL) && b.load.maxConc == AtLeastOne(e.maxConc)
  }

  /** Every engine routed to is in the pool at its address and with its limit. */
  ghost predicate Carried(status: map<string, Status>, o: Objects) {
    forall n, i | n in status && status[n].routed.Some? && 0 <= i < |status[n].routed.value| ::
      Routes(o, n, status[n].routed.value[i])
  }

  /** The instance is in the pool at its own address and with its limit. */
  ghost predicate Served(o: Objects, n: string, c: NodeConf, r: Running)
    requires c.host.Some?
  {
    && Key(n, r.servedName) in o.dynamic && o.dynamic[Key(n, r.servedName)] < |o.made|
    && var b := o.made[o.dynamic[Key(n, r.servedName)]];
       && b.baseURL == "http://" + c.host.value + ":" + Digits(r.port) + "/v1"
       && b.load.maxConc == AtLeastOne(MinPositive(c.maxConc, r.maxNumSeqs))
  }

  /** The pool serves exactly the ready instances of the report under the node's keys. */
  ghost predicate ServesReport(o: Objects, n: string, c: NodeConf, rs: seq<Running>)
    requires c.host.Some?
  {
    && (forall i | 0 <= i < |rs| && rs[i].state == Supervisor.Ready :: Served(o, n, c, rs[i]))
    && (forall m :: Key(n, m) in o.dynamic <==> NamesReady(rs, m))
  }

  lemma RoutesServes(o: Objects, n: string, c: NodeConf, r: Running, e: Engine)
    requires c.host.Some? && Routes(o, n, e) && e == EngineOf(c, r)
    ensures Served(o, n, c, r)
  {
    assert TrimSlash(e.baseURL) == e.baseURL;
  }

  /** What a table says about one node's keys: a key of the node is stored exactly when it is listed. */
  lemma StoredIffListed(byNode: map<string, seq<string>>, d: map<string, nat>, n: string, m: string)
    requires TableSound(byNode, d) && n in byNode
    ensures Key(n, m) in d <==> Key(n, m) in byNode[n]
  {
    if Key(n, m) in d {
      var o :| o in byNode && Key(n, m) in byNode[o];
      var i :| 0 <= i < |byNode[o]| && byNode[o][i] == Key(n, m);
      assert KeyOf(o, byNode[o][i]);
      KeyDecodes(n, m, o, Key(n, m)[|o| + 1..]);
    }
    if Key(n, m) in byNode[n] {
      var i :| 0 <= i < |byNode[n]| && byNode[n][i] == Key(n, m);
    }
  }

  lemma ListedIffReady(n: string, c: NodeConf, rs: seq<Running>, m: string)
    requires c.host.Some? && DistinctNames(rs)
    ensures Key(n, m) in KeysOf(n, ReadyEngines(c, rs)) <==> NamesReady(rs, m)
  {
    var es := ReadyEngines(c, rs);
    ReadyAreDistinct(c, rs);
    if Key(n, m) in KeysOf(n, es) {
      var k :| 0 <= k < |es| && KeysOf(n, es)[k] == Key(n, m);
      KeyDecodes(n, m, n, es[k].model);
      assert NamesReady(rs, es[k].model);
    }
    if NamesReady(rs, m) {
      var i: nat :| i < |rs| && rs[i].state == Supervisor.Ready && rs[i].servedName == m;
      ReadyEngineAt(c, rs, i);
      assert KeysOf(n, es)[ReadyAmong(rs, i)] == Key(n, m);
    }
  }

  /** A pool in step whose routed engines are those of the report serves exactly the report. */
  lemma MirrorServes(byNode: map<string, seq<string>>, o: Objects, n: string, c: NodeConf, rs: seq<Running>)
    requires c.host.Some? && DistinctNames(rs) && TableSound(byNode, o.dynamic)
    requires n in byNode && byNode[n] == KeysOf(n, ReadyEngines(c, rs))
    requires forall k | 0 <= k < |ReadyEngines(c, rs)| :: Routes(o, n, ReadyEngines(c, rs)[k])
    ensures ServesReport(o, n, c, rs)
  {
    forall i: nat | i < |rs| && rs[i].state == Supervisor.Ready ensures Served(o, n, c, rs[i]) {
      ReadyEngineAt(c, rs, i);
      RoutesServes(o, n, c, rs[i], ReadyEngines(c, rs)[ReadyAmong(rs, i)]);
    }
    forall m ensures Key(n, m) in o.dynamic <==> NamesReady(rs, m) {
      StoredIffListed(byNode, o.dynamic, n, m);
      ListedIffReady(n, c, rs, m);
    }
  }

  lemma StepServes(conf: map<string, NodeConf>, status: map<string, Status>, byNode: map<string, seq<string>>, o: Objects,
                   n: string, rs: seq<Running>)
    requires InStep(conf, status, byNode) && Carried(status, o) && TableSound(byNode, o.dynamic)
    requires n in conf && conf[n].host.Some? && DistinctNames(rs) && status[n].routed == Some(ReadyEngines(conf[n], rs))
    ensures ServesReport(o, n, conf[n], rs)
  {
    var es := ReadyEngines(conf[n], rs);
    forall k | 0 <= k < |es| ensures Routes(o, n, es[k]) {
      assert Routes(o, n, status[n].routed.value[k]);
    }
    MirrorServes(byNode, o, n, conf[n], rs);
  }

  ghost predicate AllApart(conf: map<string, NodeConf>) {
    forall a, b | a in conf && b in conf && a != b :: Apart(a, b)
  }

  lemma PollIsFaithful(c: NodeConf, s: Status, a: Answer, now: int)
    requires Faithful(c, s)
    ensures Faithful(c, Poll(c, s, a, now))
  {
  }

  /** The node table once node `n` has status `s`. */
  function Tabled(byNode: map<string, seq<string>>, n: string, s: Status): map<string, seq<string>> {
    if s.routed.Some? then byNode[n := KeysOf(n, s.routed.value)] else byNode - {n}
  }

  lemma FaithfulAfter(conf: map<string, NodeConf>, status: map<string, Status>, n: string, s: Status)
    requires status.Keys == conf.Keys && (forall m | m in conf :: Faithful(conf[m], status[m]))
    requires n in conf && Faithful(conf[n], s)
    ensures forall m | m in conf :: Faithful(conf[m], status[n := s][m])
  {
    forall m | m in conf ensures Faithful(conf[m], status[n := s][m]) {
      if m != n { assert status[n := s][m] == status[m]; }
    }
  }

  /** The table lists, for each node with engines routed to it, their keys. */
  ghost predicate Listed(status: map<string, Status>, byNode: map<string, seq<string>>) {
    && (forall n :: n in byNode <==> n in status && status[n].routed.Some?)
    && (forall n | n in byNode :: byNode[n] == KeysOf(n, status[n].routed.value))
  }

  lemma ListedAfter(status: map<string, Status>, byNode: map<string, seq<string>>, n: string, s: Status)
    requires Listed(status, byNode)
    ensures Listed(status[n := s], Tabled(byNode, n, s))
  {
    var after, table := status[n := s], Tabled(byNode, n, s);
    forall m | m in table ensures after[m].routed.Some? && table[m] == KeysOf(m, after[m].routed.value) {
      if m != n { assert m in byNode && after[m] == status[m]; }
    }
  }

  lemma StatusStaysInStep(conf: map<string, NodeConf>, status: map<string, Status>, byNode: map<string, seq<string>>,
                          n: string, s: Status)
    requires InStep(conf, status, byNode) && n in conf && Faithful(conf[n], s)
    ensures InStep(conf, status[n := s], Tabled(byNode, n, s))
  {
    FaithfulAfter(conf, status, n, s);
    ListedAfter(status, byNode, n, s);
  }

  lemma PollStaysInStep(conf: map<string, NodeConf>, status: map<string, Status>, byNode: map<string, seq<string>>,
                        n: string, a: Answer, now: int)
    requires InStep(conf, status, byNode) && n in conf
    ensures var s := Poll(conf[n], status[n], a, now);
            InStep(conf, status[n := s], Tabled(byNode, n, s))
  {
    PollIsFaithful(conf[n], status[n], a, now);
    StatusStaysInStep(conf, status, byNode, n, Poll(conf[n], status[n], a, now));
  }

  lemma NoteKeeps(conf: map<string, NodeConf>, status: map<string, Status>, byNode: map<string, seq<string>>, o: Objects,
                  n: string, s: Status)
    requires InStep(conf, status, byNode) && Carried(status, o)
    requires n in conf && s.routed == status[n].routed && Faithful(conf[n], s)
    ensures InStep(conf, status[n := s], byNode) && Carried(status[n := s], o)
  {
    FaithfulAfter(conf, status, n, s);
    SameRoutesListed(status, byNode, n, s);
    SameRoutesCarried(status, o, n, s);
  }

  lemma SameRoutesListed(status: map<string, Status>, byNode: map<string, seq<string>>, n: string, s: Status)
    requires Listed(status, byNode) && n in status && s.routed == status[n].routed
    ensures Listed(status[n := s], byNode)
  {
    var status' := status[n := s];
    assert forall m | m in status :: status'[m].routed == status[m].routed;
  }

  lemma SameRoutesCarried(status: map<string, Status>, o: Objects, n: string, s: Status)
    requires Carried(status, o) && n in status && s.routed == status[n].routed
    ensures Carried(status[n := s], o)
  {
    var status' := status[n := s];
    forall m, i | m in status' && status'[m].routed.Some? && 0 <= i < |status'[m].routed.value|
      ensures Routes(o, m, status'[m].routed.value[i])
    {
      assert Routes(o, m, status[m].routed.value[i]);
    }
  }

  lemma DropCarries(conf: map<string, NodeConf>, status: map<string, Status>, n: string, o: Objects, o': Objects,
                    byNode: map<string, seq<string>>)
    requires InStep(conf, status, byNode) && Carried(status, o) && o'.made == o.made
    requires forall m, k | m in byNode && m != n && k in byNode[m] :: k in o'.dynamic && (k in o.dynamic ==> o'.dynamic[k] == o.dynamic[k])
    ensures forall m, i | m in status && m != n && status[m].routed.Some? && 0 <= i < |status[m].routed.value| ::
              Routes(o', m, status[m].routed.value[i])
  {
    forall m, i | m in status && m != n && status[m].routed.Some? && 0 <= i < |status[m].routed.value|
      ensures Routes(o', m, status[m].routed.value[i])
    {
      assert Routes(o, m, status[m].routed.value[i]);
      assert byNode[m][i] == Key(m, status[m].routed.value[i].model);
      assert byNode[m][i] in byNode[m];
    }
  }

  lemma SyncCarries(conf: map<string, NodeConf>, status: map<string, Status>, n: string, s: Status, o: Objects, o': Objects,
                    byNode: map<string, seq<string>>)
    requires InStep(conf, status, byNode) && Carried(status, o) && s.routed.Some?
    requires Sound(o) && Sound(o') && OnlyLimitsMoved(o.made, o'.made)
    requires AllRefreshed(o, o', n, s.routed.value) && OthersKept(byNode, n, o, o')
    ensures Carried(status[n := s], o')
  {
    var after := status[n := s];
    forall m, i | m in after && after[m].routed.Some? && 0 <= i < |after[m].routed.value|
      ensures Routes(o', m, after[m].routed.value[i])
    {
      var e := after[m].routed.value[i];
      if m == n {
        assert Refreshed(o, o', Key(n, e.model), e);
      } else {
        assert Routes(o, m, e);
        assert byNode[m][i] == Key(m, e.model);
        assert byNode[m][i] in byNode[m];
      }
    }
  }

  /** The manager and the pool it keeps in step. */
  class NodeManager {
    const conf: map<string, NodeConf>
    const pool: Pool
    var status: map<string, Status>

    ghost predicate Valid()
      reads this, pool
    {
      pool.Valid() && AllApart(conf) && InStep(conf, status, pool.byNode) && Carried(status, pool.objects)
    }

    constructor (conf: map<string, NodeConf>)
      requires AllApart(conf)
      ensures Valid() && this.conf == conf && fresh(pool)
    {
      this.conf := conf;
      status := map n | n in conf :: NeverPolled();
      pool := new Pool();
    }

    method PollNode(n: string, a: Answer, now: int)
      requires Valid() && n in conf && (a.Info? ==> DistinctNames(a.instances))
      modifies this, pool
      ensures Valid()
      ensures status == old(status)[n := Poll(conf[n], old(status[n]), a, now)]
      ensures OnlyLimitsMoved(old(pool.objects.made), pool.objects.made)
      ensures OthersKept(old(pool.byNode), n, old(pool.objects), pool.objects)
      ensures a.Info? && conf[n].host.Some? ==>
                AllRefreshed(old(pool.objects), pool.objects, n, ReadyEngines(conf[n], a.instances))
      ensures a.Info? && conf[n].host.Some? ==> ServesReport(pool.objects, n, conf[n], a.instances)
      ensures a.Unreachable? ==> pool.objects.made == old(pool.objects.made)
      ensures a.Unreachable? && status[n].routed.Some? ==> pool.objects == old(pool.objects)
    {
      match a {
        case Unreachable => Missed(n, now);
        case Info(rs) =>
          Answered(n, rs, now);
          if conf[n].host.Some? { StepServes(conf, status, pool.byNode, pool.objects, n, rs); }
      }
    }

    method Missed(n: string, now: int)
      requires Valid() && n in conf
      modifies this, pool
      ensures Valid()
      ensures status == old(status)[n := Poll(conf[n], old(status[n]), Unreachable, now)]
      ensures pool.objects.made == old(pool.objects.made)
      ensures OthersKept(old(pool.byNode), n, old(pool.objects), pool.objects)
      ensures status[n].routed.Some? ==> pool.objects == old(pool.objects)
    {
      PollStaysInStep(conf, status, pool.byNode, n, Unreachable, now);
      if status[n].seen.None? || now - status[n].seen.value > GRACE {
        Forget(n, now);
      } else {
        Note(n, status[n].(polled := now));
      }
    }

    /** Record a poll that leaves the node's engines in routing as they are. */
    method Note(n: string, s: Status)
      requires Valid() && n in conf && s.routed == status[n].routed && Faithful(conf[n], s)
      modifies this`status
      ensures Valid() && status == old(status)[n := s]
    {
      NoteKeeps(conf, status, pool.byNode, pool.objects, n, s);
      status := status[n := s];
    }

    method Forget(n: string, now: int)
      requires Valid() && n in conf
      modifies this, pool
      ensures pool.Valid() && Carried(status, pool.objects)
      ensures status == old(status)[n := old(status[n]).(polled := now, routed := None)]
      ensures pool.byNode == old(pool.byNode) - {n} && pool.objects.made == old(pool.objects.made)
      ensures OthersKept(old(pool.byNode), n, old(pool.objects), pool.objects)
    {
      ghost var before, table := pool.objects, pool.byNode;
      status := status[n := status[n].(polled := now, routed := None)];
      pool.DropNode(n);
      DropCarries(conf, old(status), n, before, pool.objects, table);
    }

    method Answered(n: string, rs: seq<Running>, now: int)
      requires Valid() && n in conf && DistinctNames(rs)
      modifies this, pool
      ensures Valid()
      ensures status == old(status)[n := Poll(conf[n], old(status[n]), Info(rs), now)]
      ensures OnlyLimitsMoved(old(pool.objects.made), pool.objects.made)
      ensures OthersKept(old(pool.byNode), n, old(pool.objects), pool.objects)
      ensures conf[n].host.Some? ==>
                AllRefreshed(old(pool.objects), pool.objects, n, ReadyEngines(conf[n], rs))
    {
      PollStaysInStep(conf, status, pool.byNode, n, Info(rs), now);
      if conf[n].host.Some? {
        Mirror(n, rs, now);
      } else {
        Note(n, status[n].(seen := Some(now), info := rs, polled := now));
      }
    }

    method Mirror(n: string, rs: seq<Running>, now: int)
      requires Valid() && n in conf && conf[n].host.Some? && DistinctNames(rs)
      modifies this, pool
      ensures pool.Valid() && Carried(status, pool.objects)
      ensures status == old(status)[n := Poll(conf[n], old(status[n]), Info(rs), now)]
      ensures pool.byNode == old(pool.byNode)[n := KeysOf(n, ReadyEngines(conf[n], rs))]
      ensures OnlyLimitsMoved(old(pool.objects.made), pool.objects.made)
      ensures OthersKept(old(pool.byNode), n, old(pool.objects), pool.objects)
      ensures conf[n].host.Some? ==>
                AllRefreshed(old(pool.objects), pool.objects, n, ReadyEngines(conf[n], rs))
    {
      ghost var before, table := pool.objects, pool.byNode;
      var es := CollectReady(conf[n], rs);
      ReadyAreDistinct(conf[n], rs);
      pool.SyncNode(n, es);
      SyncCarries(conf, status, n, Status(Some(now), rs, now, Some(es)), before, pool.objects, table);
      status := status[n := Status(Some(now), rs, now, Some(es))];
    }
  }
}
