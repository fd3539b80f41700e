/**
 The engine supervisor's protocol for one `Instance`: any number of goroutines (the
 launcher, one reaper and one readiness probe per launch, and any number of stoppers)
 interleave, one atomic step per critical section, on the fields the instance's mutex guards.
 */
module Supervisor {
  import opened Options

  datatype Status = Starting | Ready | Failed | Stopped

  type Pid = nat
  type Chan = nat

  /** The fields of an instance guarded by its mutex. A channel is a number; `made` channels
      have been created so far and `closed` of them are closed. */
  datatype Shared = Shared(
    state: Status,
    stopping: bool,
    desired: bool,
    restarts: nat,
    cmd: Option<Pid>,
    exited: Chan,
    made: nat,
    closed: set<Chan>)

  // ---------------------------------------------------------------------------
  // The critical sections, as functions of the guarded fields
  // ---------------------------------------------------------------------------

  function FreshInstance(): Shared {
    Shared(Starting, false, true, 0, None, 0, 1, {})
  }

  function PublishProcess(h: Shared, p: Pid): Shared {
    h.(cmd := Some(p), stopping := false)
  }

  function CloseExited(h: Shared): Shared {
    if h.exited in h.closed then h else h.(closed := h.closed + {h.exited})
  }

  /** The reaper's second critical section: give up, or count a restart and make a new channel. */
  function DecideRestart(h: Shared, maxRestarts: int): Shared {
    if h.restarts >= maxRestarts then h.(state := Failed)
    else h.(restarts := h.restarts + 1, state := Starting, exited := h.made, made := h.made + 1)
  }

  function MarkReady(h: Shared): Shared {
    if h.state == Stopped || h.state == Failed then h else h.(state := Ready)
  }

  function RequestStop(h: Shared, clearDesired: bool): Shared {
    h.(stopping := true, desired := if clearDesired then false else h.desired)
  }

  function SetState(h: Shared, st: Status): Shared {
    h.(state := st)
  }

  // ---------------------------------------------------------------------------
  // The machine
  // ---------------------------------------------------------------------------

  /** Where a goroutine stands. */
  datatype Pc =
    | Launching                               // in launch (or the backoff before it), process not started
    | Publishing(pid: Pid)                    // process started, not yet published
    | LaunchFailed                            // launch returned an error, state not yet set
    | Waiting(pid: Pid)                       // reaper before its first critical section
    | SawExit(stopping: bool)                 // reaper between its two decisions
    | Probing                                 // readiness probe
    | StopWaiting(ch: Chan, cmd: Option<Pid>) // stop after its critical section
    | Ended

  datatype Sys = Sys(
    h: Shared,
    threads: seq<Pc>,
    live: set<Pid>,      // engine processes alive in the operating system
    started: nat,        // processes started so far; the next one gets this number
    launches: nat,       // launches published so far
    reaped: set<Pid>)    // processes whose reaper has taken its first lock

  datatype Event =
    | StartProcess(t: nat)
    | StartFails(t: nat)
    | SetLaunchFailed(t: nat)
    | Publish(t: nat)
    | Dies(p: Pid)
    | ReapFirst(t: nat)
    | ReapStopped(t: nat)
    | ReapSecond(t: nat)
    | ProbeReady(t: nat)
    | ProbeLeaves(t: nat)
    | ProbeTimesOut(t: nat)
    | StopEnters(clearDesired: bool)
    | StopReturns(t: nat)

  function Initial(): Sys {
    Sys(FreshInstance(), [Launching], {}, 0, 0, {})
  }

  predicate At(s: Sys, t: nat, pc: Pc) {
    t < |s.threads| && s.threads[t] == pc
  }

  predicate Enabled(s: Sys, e: Event) {
    match e
    case StartProcess(t) => At(s, t, Launching)
    case StartFails(t) => At(s, t, Launching)
    case SetLaunchFailed(t) => At(s, t, LaunchFailed)
    case Publish(t) => t < |s.threads| && s.threads[t].Publishing?
    case Dies(p) => p in s.live
    case ReapFirst(t) => t < |s.threads| && s.threads[t].Waiting? && s.threads[t].pid !in s.live
    case ReapStopped(t) => At(s, t, SawExit(true))
    case ReapSecond(t) => At(s, t, SawExit(false))
    case ProbeReady(t) => At(s, t, Probing)
    case ProbeLeaves(t) => At(s, t, Probing) && (s.h.state == Stopped || s.h.state == Failed)
    case ProbeTimesOut(t) => At(s, t, Probing)
    case StopEnters(_) => true
    case StopReturns(t) =>
      t < |s.threads| && s.threads[t].StopWaiting? &&
      (s.threads[t].cmd == None || s.threads[t].ch in s.h.closed)
  }

  function Apply(s: Sys, e: Event, maxRestarts: int): Sys
    requires Enabled(s, e)
  {
    match e
    case StartProcess(t) =>
      s.(threads := s.threads[t := Publishing(s.started)], live := s.live + {s.started}, started := s.started + 1)
    case StartFails(t) => s.(threads := s.threads[t := LaunchFailed])
    case SetLaunchFailed(t) => s.(h := SetState(s.h, Failed), threads := s.threads[t := Ended])
    case Publish(t) =>
      // Publishing spawns the probe and the reaper; the launching goroutine itself is done.
      var p := s.threads[t].pid;
      s.(h := PublishProcess(s.h, p), threads := s.threads[t := Ended] + [Probing, Waiting(p)],
         launches := s.launches + 1)
    case Dies(p) => s.(live := s.live - {p})
    case ReapFirst(t) =>
      s.(h := CloseExited(s.h), threads := s.threads[t := SawExit(s.h.stopping)],
         reaped := s.reaped + {s.threads[t].pid})
    case ReapStopped(t) => s.(h := SetState(s.h, Stopped), threads := s.threads[t := Ended])
    case ReapSecond(t) =>
      s.(h := DecideRestart(s.h, maxRestarts),
         threads := s.threads[t := if s.h.restarts >= maxRestarts then Ended else Launching])
    case ProbeReady(t) => s.(h := MarkReady(s.h), threads := s.threads[t := Ended])
    case ProbeLeaves(t) => s.(threads := s.threads[t := Ended])
    case ProbeTimesOut(t) => s.(h := SetState(s.h, Failed), threads := s.threads[t := Ended])
    case StopEnters(clear) =>
      s.(h := RequestStop(s.h, clear), threads := s.threads + [StopWaiting(s.h.exited, s.h.cmd)])
    case StopReturns(t) => s.(h := SetState(s.h, Stopped), threads := s.threads[t := Ended])
  }

  /** The state after the events `es`, or None when one of them could not happen. */
  function Run(s: Sys, es: seq<Event>, maxRestarts: int): Option<Sys>
    decreases |es|
  {
    if es == [] then Some(s)
    else if !Enabled(s, es[0]) then None
    else Run(Apply(s, es[0], maxRestarts), es[1..], maxRestarts)
  }

  // ---------------------------------------------------------------------------
  // The invariant
  // ---------------------------------------------------------------------------

  /** A goroutine that may still start, publish, reap or restart an engine. */
  predicate Drives(pc: Pc) {
    pc.Launching? || pc.Publishing? || pc.LaunchFailed? || pc.Waiting? || pc.SawExit?
  }

  ghost predicate NoDriver(s: Sys) {
    forall t | 0 <= t < |s.threads| :: !Drives(s.threads[t])
  }

  ghost predicate OneDriver(s: Sys) {
    forall t, u | 0 <= t < |s.threads| && 0 <= u < |s.threads| && Drives(s.threads[t]) && Drives(s.threads[u]) :: t == u
  }

  /** What the driving goroutine's position says about the rest of the state. */
  predicate DriverFits(s: Sys, pc: Pc) {
    match pc
    case Launching => s.started == s.h.restarts && s.launches == s.started && s.live == {}
    case Publishing(p) =>
      && p == s.h.restarts && s.started == p + 1 && s.launches == p
      && s.live <= {p} && p !in s.reaped
    case Waiting(p) =>
      && p == s.h.restarts && s.started == p + 1 && s.launches == p + 1
      && s.live <= {p} && p !in s.reaped && s.h.cmd == Some(p)
    case SawExit(_) =>
      s.started == s.h.restarts + 1 && s.launches == s.started && s.live == {} && s.h.restarts in s.reaped
    case LaunchFailed => s.live == {}
    case _ => true
  }

  function AtLeastZero(n: int): nat {
    if n < 0 then 0 else n
  }

  ghost predicate Inv(s: Sys, maxRestarts: int) {
    && s.h.exited == s.h.restarts && s.h.made == s.h.restarts + 1
    && s.h.restarts <= AtLeastZero(maxRestarts)
    && s.launches <= s.started <= s.h.restarts + 1
    && s.h.closed == s.reaped
    && (forall p | p in s.reaped :: p < s.started)
    && OneDriver(s)
    && (forall t | 0 <= t < |s.threads| :: DriverFits(s, s.threads[t]))
    && (NoDriver(s) ==> s.live == {} && (s.h.state == Failed || s.h.state == Stopped))
    && (forall p | p in s.live :: p !in s.reaped)
  }

  lemma InitialInv(maxRestarts: int)
    ensures Inv(Initial(), maxRestarts)
  {
    assert Drives(Initial().threads[0]);
  }

  /** The driver at `t` moves to `pc`, spawning `extra`, of which at most one drives in its place. */
  lemma DriverMoves(s: Sys, s': Sys, t: nat, pc: Pc, extra: seq<Pc>)
    requires OneDriver(s) && t < |s.threads| && Drives(s.threads[t])
    requires s'.threads == s.threads[t := pc] + extra
    requires extra == [] || (!Drives(pc) && |extra| == 2 && !Drives(extra[0]) && DriverFits(s', extra[1]))
    requires DriverFits(s', pc)
    ensures OneDriver(s')
    ensures forall u | 0 <= u < |s'.threads| :: DriverFits(s', s'.threads[u])
    ensures NoDriver(s') ==> !Drives(pc) && (extra == [] || !Drives(extra[1]))
  {
    assert forall u | 0 <= u < |s.threads| && u != t :: s'.threads[u] == s.threads[u] && !Drives(s.threads[u]);
    assert s'.threads[t] == pc;
    assert extra != [] ==> s'.threads[|s.threads| + 1] == extra[1];
  }

  /** A goroutine that drives nothing ends or appears; what drivers depend on stays. */
  lemma BystanderMoves(s: Sys, s': Sys, maxRestarts: int)
    requires Inv(s, maxRestarts)
    requires |s.threads| <= |s'.threads|
    requires forall u | 0 <= u < |s'.threads| ::
               if u < |s.threads| then s'.threads[u] == s.threads[u] || (!Drives(s.threads[u]) && !Drives(s'.threads[u]))
               else !Drives(s'.threads[u])
    requires s'.started == s.started && s'.launches == s.launches && s'.reaped == s.reaped && s'.live <= s.live
    requires s'.h.restarts == s.h.restarts && s'.h.cmd == s.h.cmd
    ensures OneDriver(s') && forall u | 0 <= u < |s'.threads| :: DriverFits(s', s'.threads[u])
    ensures NoDriver(s') == NoDriver(s)
  {
    assert forall u | 0 <= u < |s.threads| :: Drives(s'.threads[u]) == Drives(s.threads[u]);
    forall u | 0 <= u < |s'.threads| ensures DriverFits(s', s'.threads[u]) {
      if Drives(s'.threads[u]) { assert DriverFits(s, s.threads[u]); }
    }
  }

  /** Every step, whichever goroutine takes it, keeps the invariant. */
  lemma StepKeepsInv(s: Sys, e: Event, maxRestarts: int)
    requires Inv(s, maxRestarts) && Enabled(s, e)
    ensures Inv(Apply(s, e, maxRestarts), maxRestarts)
  {
    match e {
      case StartProcess(_) | StartFails(_) | SetLaunchFailed(_) | Publish(_) => LaunchKeepsInv(s, e, maxRestarts);
      case ReapFirst(_) | ReapStopped(_) | ReapSecond(_) => ReapKeepsInv(s, e, maxRestarts);
      case _ => OthersKeepInv(s, e, maxRestarts);
    }
  }

  lemma OthersKeepInv(s: Sys, e: Event, maxRestarts: int)
    requires Inv(s, maxRestarts) && Enabled(s, e)
    requires !(e.StartProcess? || e.StartFails? || e.SetLaunchFailed? || e.Publish?)
    requires !(e.ReapFirst? || e.ReapStopped? || e.ReapSecond?)
    ensures Inv(Apply(s, e, maxRestarts), maxRestarts)
  {
    BystanderMoves(s, Apply(s, e, maxRestarts), maxRestarts);
  }

  lemma LaunchKeepsInv(s: Sys, e: Event, maxRestarts: int)
    requires Inv(s, maxRestarts) && Enabled(s, e)
    requires e.StartProcess? || e.StartFails? || e.SetLaunchFailed? || e.Publish?
    ensures Inv(Apply(s, e, maxRestarts), maxRestarts)
  {
    var s' := Apply(s, e, maxRestarts);
    assert DriverFits(s, s.threads[e.t]);
    match e {
      case StartProcess(t) => DriverMoves(s, s', t, Publishing(s.started), []);
      case StartFails(t) => DriverMoves(s, s', t, LaunchFailed, []);
      case SetLaunchFailed(t) => DriverMoves(s, s', t, Ended, []);
      case Publish(t) =>
        var p := s.threads[t].pid;
        DriverMoves(s, s', t, Ended, [Probing, Waiting(p)]);
    }
  }

  lemma ReapKeepsInv(s: Sys, e: Event, maxRestarts: int)
    requires Inv(s, maxRestarts) && Enabled(s, e)
    requires e.ReapFirst? || e.ReapStopped? || e.ReapSecond?
    ensures Inv(Apply(s, e, maxRestarts), maxRestarts)
  {
    var s' := Apply(s, e, maxRestarts);
    assert DriverFits(s, s.threads[e.t]);
    DriverMoves(s, s', e.t, s'.threads[e.t], []);
  }

  /** The invariant holds in every state of every run of an instance. */
  lemma {:induction false} RunKeepsInv(s: Sys, es: seq<Event>, maxRestarts: int)
    requires Inv(s, maxRestarts) && Run(s, es, maxRestarts).Some?
    ensures Inv(Run(s, es, maxRestarts).value, maxRestarts)
    decreases |es|
  {
    if es != [] {
      StepKeepsInv(s, es[0], maxRestarts);
      RunKeepsInv(Apply(s, es[0], maxRestarts), es[1..], maxRestarts);
    }
  }

  ghost predicate Reachable(s: Sys, maxRestarts: int) {
    exists es :: Run(Initial(), es, maxRestarts) == Some(s)
  }

  lemma ReachableInv(s: Sys, maxRestarts: int)
    requires Reachable(s, maxRestarts)
    ensures Inv(s, maxRestarts)
  {
    var es :| Run(Initial(), es, maxRestarts) == Some(s);
    InitialInv(maxRestarts);
    RunKeepsInv(Initial(), es, maxRestarts);
  }

  // ---------------------------------------------------------------------------
  // Safety over every interleaving
  // ---------------------------------------------------------------------------

  /** At most one goroutine launches or reaps, at most one engine process is alive, and the crash
      loop is bounded. */
  lemma OneEngineBoundedRestarts(s: Sys, maxRestarts: int)
    requires Reachable(s, maxRestarts)
    ensures forall t, u | 0 <= t < |s.threads| && 0 <= u < |s.threads| && Drives(s.threads[t]) && Drives(s.threads[u]) :: t == u
    ensures forall p, q | p in s.live && q in s.live :: p == q
    ensures s.h.restarts <= AtLeastZero(maxRestarts)
    ensures s.launches <= s.started <= 1 + AtLeastZero(maxRestarts)
  {
    ReachableInv(s, maxRestarts);
    if !NoDriver(s) {
      var t :| 0 <= t < |s.threads| && Drives(s.threads[t]);
      assert DriverFits(s, s.threads[t]);
    }
  }

  /** The channel a reaper is about to close is always still open, so its guard against a double
      close never has to save it, and each process's exit closes a channel of its own. */
  lemma ReaperClosesAnOpenChannel(s: Sys, t: nat, maxRestarts: int)
    requires Reachable(s, maxRestarts) && Enabled(s, ReapFirst(t))
    ensures s.h.exited !in s.h.closed
    ensures Apply(s, ReapFirst(t), maxRestarts).h.closed == s.h.closed + {s.threads[t].pid}
  {
    ReachableInv(s, maxRestarts);
    assert DriverFits(s, s.threads[t]);
  }

  /** Once nothing drives the instance, nothing ever will, and it reads failed or stopped forever. */
  lemma {:induction false} SettledStaysSettled(s: Sys, es: seq<Event>, maxRestarts: int)
    requires Inv(s, maxRestarts) && NoDriver(s) && Run(s, es, maxRestarts).Some?
    ensures var s' := Run(s, es, maxRestarts).value;
            && NoDriver(s') && (s'.h.state == Failed || s'.h.state == Stopped)
            && s'.started == s.started && s'.h.restarts == s.h.restarts
    decreases |es|
  {
    if es != [] {
      var s1 := Apply(s, es[0], maxRestarts);
      StepKeepsInv(s, es[0], maxRestarts);
      if es[0].Publish? || es[0].ReapFirst? {
        assert false;
      } else {
        BystanderMoves(s, s1, maxRestarts);
      }
      SettledStaysSettled(s1, es[1..], maxRestarts);
    }
  }

  /** After the give-up decision the instance stays failed or stopped in every continuation. */
  lemma GiveUpIsForever(s: Sys, t: nat, es: seq<Event>, maxRestarts: int)
    requires Reachable(s, maxRestarts) && Enabled(s, ReapSecond(t)) && s.h.restarts >= maxRestarts
    requires Run(Apply(s, ReapSecond(t), maxRestarts), es, maxRestarts).Some?
    ensures Apply(s, ReapSecond(t), maxRestarts).h.state == Failed
    ensures var s' := Run(Apply(s, ReapSecond(t), maxRestarts), es, maxRestarts).value;
            (s'.h.state == Failed || s'.h.state == Stopped) && s'.started == s.started
  {
    ReachableInv(s, maxRestarts);
    StepKeepsInv(s, ReapSecond(t), maxRestarts);
    var s1 := Apply(s, ReapSecond(t), maxRestarts);
    assert Drives(s.threads[t]);
    assert NoDriver(s1);
    SettledStaysSettled(s1, es, maxRestarts);
  }

  predicate Down(s: Sys) {
    s.h.state == Stopped || s.h.state == Failed
  }

  lemma {:induction false} RestartsOnlyGrow(s: Sys, es: seq<Event>, maxRestarts: int)
    requires Run(s, es, maxRestarts).Some?
    ensures s.h.restarts <= Run(s, es, maxRestarts).value.h.restarts
    decreases |es|
  {
    if es != [] {
      RestartsOnlyGrow(Apply(s, es[0], maxRestarts), es[1..], maxRestarts);
    }
  }

  /** In every interleaving a stopped or failed instance stays so until a crash restart is counted:
      no probe, however late, brings it back. */
  lemma {:induction false} ProbeNeverResurrects(s: Sys, es: seq<Event>, maxRestarts: int)
    requires Down(s) && Run(s, es, maxRestarts).Some?
    requires Run(s, es, maxRestarts).value.h.restarts == s.h.restarts
    ensures Down(Run(s, es, maxRestarts).value)
    decreases |es|
  {
    if es != [] {
      var s1 := Apply(s, es[0], maxRestarts);
      RestartsOnlyGrow(s1, es[1..], maxRestarts);
      assert Down(s1);
      ProbeNeverResurrects(s1, es[1..], maxRestarts);
    }
  }

  // ---------------------------------------------------------------------------
  // What the state reads
  // ---------------------------------------------------------------------------

  lemma {:induction false} RunLast(s: Sys, es: seq<Event>, maxRestarts: int)
    requires es != [] && Run(s, es, maxRestarts).Some?
    ensures var n := |es| - 1;
            && Run(s, es[..n], maxRestarts).Some? && Enabled(Run(s, es[..n], maxRestarts).value, es[n])
            && Run(s, es, maxRestarts) == Some(Apply(Run(s, es[..n], maxRestarts).value, es[n], maxRestarts))
    decreases |es|
  {
    var n := |es| - 1;
    if n > 0 {
      RunLast(Apply(s, es[0], maxRestarts), es[1..], maxRestarts);
      assert es[1..][..n - 1] == es[..n][1..];
    } else {
      assert es[1..] == [] && es[..0] == [];
    }
  }

  lemma {:induction false} RunPrefix(s: Sys, es: seq<Event>, k: nat, maxRestarts: int)
    requires k <= |es| && Run(s, es, maxRestarts).Some?
    ensures Run(s, es[..k], maxRestarts).Some?
    decreases |es|
  {
    if k == |es| {
      assert es[..k] == es;
    } else {
      RunLast(s, es, maxRestarts);
      RunPrefix(s, es[..|es| - 1], k, maxRestarts);
      assert es[..|es| - 1][..k] == es[..k];
    }
  }

  /** What the instance reads when event `k` of a run of an instance happens. */
  ghost function ReadsBefore(es: seq<Event>, k: nat, maxRestarts: int): Status
    requires k <= |es|
  {
    var r := Run(Initial(), es[..k], maxRestarts);
    if r.Some? then r.value.h.state else Starting
  }

  /** Event `k` writes the state: a failure, a stop or a restart always, an answered probe unless the
      instance reads stopped or failed. */
  ghost predicate WritesState(es: seq<Event>, k: nat, maxRestarts: int)
    requires k < |es|
  {
    var was := ReadsBefore(es, k, maxRestarts);
    || es[k].SetLaunchFailed? || es[k].ProbeTimesOut? || es[k].ReapStopped? || es[k].StopReturns? || es[k].ReapSecond?
    || (es[k].ProbeReady? && (was == Starting || was == Ready))
  }

  /** Event `k` is the last that writes the state. */
  ghost predicate LastWrite(es: seq<Event>, k: nat, maxRestarts: int) {
    k < |es| && WritesState(es, k, maxRestarts) && forall i | k < i < |es| :: !WritesState(es, i, maxRestarts)
  }

  lemma PrefixWrites(es: seq<Event>, n: nat, k: nat, maxRestarts: int)
    requires k < n <= |es|
    ensures WritesState(es[..n], k, maxRestarts) == WritesState(es, k, maxRestarts)
  {
    assert es[..n][..k] == es[..k];
  }

  lemma LastWriteExtends(es: seq<Event>, k: nat, maxRestarts: int)
    requires es != [] && !WritesState(es, |es| - 1, maxRestarts) && k < |es| - 1
    ensures LastWrite(es[..|es| - 1], k, maxRestarts) == LastWrite(es, k, maxRestarts)
  {
    var n := |es| - 1;
    forall i: nat | i < n ensures WritesState(es[..n], i, maxRestarts) == WritesState(es, i, maxRestarts) {
      PrefixWrites(es, n, i, maxRestarts);
    }
  }

  /** In every run of an instance the state reads ready exactly when the last event that wrote it is an
      answered probe. */
  lemma {:induction false} ReadyIffProbed(es: seq<Event>, maxRestarts: int)
    requires Run(Initial(), es, maxRestarts).Some?
    ensures Run(Initial(), es, maxRestarts).value.h.state == Ready
       <==> exists k: nat :: LastWrite(es, k, maxRestarts) && es[k].ProbeReady?
    decreases |es|
  {
    if es != [] {
      var n := |es| - 1;
      RunLast(Initial(), es, maxRestarts);
      ReadyIffProbed(es[..n], maxRestarts);
      if WritesState(es, n, maxRestarts) {
        assert LastWrite(es, n, maxRestarts);
        assert forall k: nat :: LastWrite(es, k, maxRestarts) ==> k == n;
      } else {
        forall k: nat ensures (LastWrite(es[..n], k, maxRestarts) && es[..n][k].ProbeReady?) == (LastWrite(es, k, maxRestarts) && es[k].ProbeReady?) {
          if k < n { LastWriteExtends(es, k, maxRestarts); }
        }
      }
    }
  }

  /** And it reads what that event says: stopped by a stop, failed by a failed launch, a timed-out probe
      or the decision to give up, starting by a restart. */
  lemma ReadsLastWrite(es: seq<Event>, maxRestarts: int)
    requires es != [] && Run(Initial(), es, maxRestarts).Some?
    ensures Run(Initial(), es[..|es| - 1], maxRestarts).Some?
    ensures var e, s := es[|es| - 1], Run(Initial(), es, maxRestarts).value.h.state;
            && (e.ReapStopped? || e.StopReturns? ==> s == Stopped)
            && (e.SetLaunchFailed? || e.ProbeTimesOut? ==> s == Failed)
            && (e.ReapSecond? ==>
                  s == if Run(Initial(), es[..|es| - 1], maxRestarts).value.h.restarts >= maxRestarts then Failed else Starting)
            && (!WritesState(es, |es| - 1, maxRestarts) ==> s == ReadsBefore(es, |es| - 1, maxRestarts))
  {
    RunLast(Initial(), es, maxRestarts);
  }

  // ---------------------------------------------------------------------------
  // When a stop is final
  // ---------------------------------------------------------------------------

  /** A goroutine that may yet publish a launch. */
  predicate MayLaunch(pc: Pc, h: Shared, maxRestarts: int) {
    match pc
    case Launching | Publishing(_) => true
    case Waiting(_) => !h.stopping
    case SawExit(stopping) => !stopping && h.restarts < maxRestarts
    case _ => false
  }

  ghost predicate Quiet(s: Sys, maxRestarts: int) {
    forall t | 0 <= t < |s.threads| :: !MayLaunch(s.threads[t], s.h, maxRestarts)
  }

  /** No continuation of `s` ever publishes another launch. */
  ghost predicate NeverLaunchesAgain(s: Sys, maxRestarts: int) {
    forall es | Run(s, es, maxRestarts).Some? :: Run(s, es, maxRestarts).value.launches == s.launches
  }

  lemma {:induction false} QuietStaysQuiet(s: Sys, es: seq<Event>, maxRestarts: int)
    requires Quiet(s, maxRestarts) && Run(s, es, maxRestarts).Some?
    ensures var s' := Run(s, es, maxRestarts).value;
            Quiet(s', maxRestarts) && s'.launches == s.launches && s'.started == s.started && s'.h.restarts == s.h.restarts
    decreases |es|
  {
    if es != [] {
      var s1 := Apply(s, es[0], maxRestarts);
      QuietStep(s, es[0], maxRestarts);
      QuietStaysQuiet(s1, es[1..], maxRestarts);
    }
  }

  lemma QuietStep(s: Sys, e: Event, maxRestarts: int)
    requires Quiet(s, maxRestarts) && Enabled(s, e)
    ensures var s' := Apply(s, e, maxRestarts);
            Quiet(s', maxRestarts) && s'.launches == s.launches && s'.started == s.started && s'.h.restarts == s.h.restarts
  {
    var s' := Apply(s, e, maxRestarts);
    match e {
      case StartProcess(_) | Publish(_) => assert false;
      case ReapFirst(t) => assert !MayLaunch(s.threads[t], s.h, maxRestarts);
      case ReapSecond(t) => assert !MayLaunch(s.threads[t], s.h, maxRestarts);
      case _ =>
    }
    forall u | 0 <= u < |s'.threads| ensures !MayLaunch(s'.threads[u], s'.h, maxRestarts) {
      if u < |s.threads| { assert !MayLaunch(s.threads[u], s.h, maxRestarts); }
    }
  }

  /** From a state where some goroutine may launch, one that does. */
  lemma LaunchIsPossible(s: Sys, t: nat, maxRestarts: int) returns (es: seq<Event>)
    requires t < |s.threads| && !s.threads[t].Waiting? && MayLaunch(s.threads[t], s.h, maxRestarts)
    ensures Run(s, es, maxRestarts).Some? && Run(s, es, maxRestarts).value.launches == s.launches + 1
    decreases match s.threads[t] case Publishing(_) => 0 case Launching => 1 case _ => 2
  {
    match s.threads[t] {
      case Publishing(_) =>
        es := [Publish(t)];
        assert Run(Apply(s, Publish(t), maxRestarts), es[1..], maxRestarts).Some?;
      case Launching =>
        var rest := LaunchIsPossible(Apply(s, StartProcess(t), maxRestarts), t, maxRestarts);
        es := [StartProcess(t)] + rest;
        assert es[1..] == rest;
      case SawExit(_) =>
        var rest := LaunchIsPossible(Apply(s, ReapSecond(t), maxRestarts), t, maxRestarts);
        es := [ReapSecond(t)] + rest;
        assert es[1..] == rest;
    }
  }

  /** A stop is final exactly when, at its critical section, no goroutine is launching, none has
      started a process it has not published, and none has already seen an exit that it will
      answer with a restart. */
  lemma StopIsFinalIff(s: Sys, clearDesired: bool, maxRestarts: int)
    ensures NeverLaunchesAgain(Apply(s, StopEnters(clearDesired), maxRestarts), maxRestarts)
            <==> forall t | 0 <= t < |s.threads| && MayLaunch(s.threads[t], s.h, maxRestarts) :: s.threads[t].Waiting?
  {
    var s1 := Apply(s, StopEnters(clearDesired), maxRestarts);
    if forall t | 0 <= t < |s.threads| && MayLaunch(s.threads[t], s.h, maxRestarts) :: s.threads[t].Waiting? {
      forall t | 0 <= t < |s1.threads| ensures !MayLaunch(s1.threads[t], s1.h, maxRestarts) {
        if t < |s.threads| { assert s1.threads[t] == s.threads[t]; }
      }
      forall es | Run(s1, es, maxRestarts).Some? ensures Run(s1, es, maxRestarts).value.launches == s1.launches {
        QuietStaysQuiet(s1, es, maxRestarts);
      }
    } else {
      var t :| 0 <= t < |s.threads| && MayLaunch(s.threads[t], s.h, maxRestarts) && !s.threads[t].Waiting?;
      assert s1.threads[t] == s.threads[t];
      var es := LaunchIsPossible(s1, t, maxRestarts);
      assert Run(s1, es, maxRestarts).value.launches != s1.launches;
    }
  }

  /** A stop that lands after process `p` was published and before its reaper's first lock is final:
      nothing is launched again, no restart is counted, and once the reaper is done the instance
      reads stopped or failed in every continuation. */
  lemma StopOfPublishedProcessIsFinal(s: Sys, d: nat, clearDesired: bool, es: seq<Event>, maxRestarts: int)
    requires Reachable(s, maxRestarts) && d < |s.threads| && s.threads[d].Waiting?
    requires Run(Apply(s, StopEnters(clearDesired), maxRestarts), es, maxRestarts).Some?
    ensures var s' := Run(Apply(s, StopEnters(clearDesired), maxRestarts), es, maxRestarts).value;
            && s'.launches == s.launches && s'.started == s.started && s'.h.restarts == s.h.restarts
            && (NoDriver(s') ==> s'.live == {} && (s'.h.state == Stopped || s'.h.state == Failed))
  {
    ReachableInv(s, maxRestarts);
    StepKeepsInv(s, StopEnters(clearDesired), maxRestarts);
    var s1 := Apply(s, StopEnters(clearDesired), maxRestarts);
    StopQuiets(s, d, clearDesired, maxRestarts);
    QuietStaysQuiet(s1, es, maxRestarts);
    RunKeepsInv(s1, es, maxRestarts);
  }

  /** Such a stop returns only after its process is dead and reaped. */
  lemma StopReturnsAfterReap(s: Sys, d: nat, clearDesired: bool, es: seq<Event>, maxRestarts: int)
    requires Reachable(s, maxRestarts) && d < |s.threads| && s.threads[d].Waiting?
    requires Run(Apply(s, StopEnters(clearDesired), maxRestarts), es, maxRestarts).Some?
    requires Enabled(Run(Apply(s, StopEnters(clearDesired), maxRestarts), es, maxRestarts).value, StopReturns(|s.threads|))
    ensures var s' := Run(Apply(s, StopEnters(clearDesired), maxRestarts), es, maxRestarts).value;
            s.threads[d].pid in s'.reaped && s.threads[d].pid !in s'.live
  {
    ReachableInv(s, maxRestarts);
    assert DriverFits(s, s.threads[d]);
    StepKeepsInv(s, StopEnters(clearDesired), maxRestarts);
    var s1 := Apply(s, StopEnters(clearDesired), maxRestarts);
    RunKeepsInv(s1, es, maxRestarts);
    StopperKeepsItsChannel(s1, |s.threads|, es, maxRestarts);
  }

  /** Once such a stop has returned, the instance reads stopped or failed, no engine is alive and none
      is ever started, in every continuation. */
  lemma StopIsForGood(s: Sys, d: nat, clearDesired: bool, es: seq<Event>, later: seq<Event>, maxRestarts: int)
    requires Reachable(s, maxRestarts) && d < |s.threads| && s.threads[d].Waiting?
    requires Run(Apply(s, StopEnters(clearDesired), maxRestarts), es, maxRestarts).Some?
    requires Enabled(Run(Apply(s, StopEnters(clearDesired), maxRestarts), es, maxRestarts).value, StopReturns(|s.threads|))
    requires Run(Returned(s, clearDesired, es, maxRestarts), later, maxRestarts).Some?
    ensures var s' := Run(Returned(s, clearDesired, es, maxRestarts), later, maxRestarts).value;
            Down(s') && s'.live == {} && s'.started == s.started
  {
    var s1 := Apply(s, StopEnters(clearDesired), maxRestarts);
    var s2 := Run(s1, es, maxRestarts).value;
    StopQuiets(s, d, clearDesired, maxRestarts);
    QuietStaysQuiet(s1, es, maxRestarts);
    ReachableInv(s, maxRestarts);
    StepKeepsInv(s, StopEnters(clearDesired), maxRestarts);
    RunKeepsInv(s1, es, maxRestarts);
    StopReturnsAfterReap(s, d, clearDesired, es, maxRestarts);
    NothingAlive(s, s2, d, maxRestarts);
    var s3 := Returned(s, clearDesired, es, maxRestarts);
    QuietStep(s2, StopReturns(|s.threads|), maxRestarts);
    QuietStaysQuiet(s3, later, maxRestarts);
    QuietStaysEmpty(s3, later, maxRestarts);
    ProbeNeverResurrects(s3, later, maxRestarts);
  }

  /** The state in which the stop that entered at `s` has returned after `es`. */
  ghost function Returned(s: Sys, clearDesired: bool, es: seq<Event>, maxRestarts: int): Sys
    requires Run(Apply(s, StopEnters(clearDesired), maxRestarts), es, maxRestarts).Some?
    requires Enabled(Run(Apply(s, StopEnters(clearDesired), maxRestarts), es, maxRestarts).value, StopReturns(|s.threads|))
  {
    Apply(Run(Apply(s, StopEnters(clearDesired), maxRestarts), es, maxRestarts).value, StopReturns(|s.threads|), maxRestarts)
  }

  lemma StopQuiets(s: Sys, d: nat, clearDesired: bool, maxRestarts: int)
    requires Reachable(s, maxRestarts) && d < |s.threads| && s.threads[d].Waiting?
    ensures Quiet(Apply(s, StopEnters(clearDesired), maxRestarts), maxRestarts)
  {
    ReachableInv(s, maxRestarts);
    var s1 := Apply(s, StopEnters(clearDesired), maxRestarts);
    assert Drives(s.threads[d]);
    forall t | 0 <= t < |s1.threads| ensures !MayLaunch(s1.threads[t], s1.h, maxRestarts) {
      if t < |s.threads| && t != d { assert s1.threads[t] == s.threads[t] && !Drives(s.threads[t]); }
    }
  }

  /** With the stopped process reaped and nothing launching, no engine is alive. */
  lemma NothingAlive(s: Sys, s': Sys, d: nat, maxRestarts: int)
    requires Inv(s, maxRestarts) && d < |s.threads| && s.threads[d].Waiting?
    requires Inv(s', maxRestarts) && Quiet(s', maxRestarts) && s'.h.restarts == s.h.restarts
    requires s.threads[d].pid in s'.reaped
    ensures s'.live == {}
  {
    assert DriverFits(s, s.threads[d]);
    if !NoDriver(s') {
      var t :| 0 <= t < |s'.threads| && Drives(s'.threads[t]);
      assert DriverFits(s', s'.threads[t]) && !MayLaunch(s'.threads[t], s'.h, maxRestarts);
    }
  }

  lemma {:induction false} QuietStaysEmpty(s: Sys, es: seq<Event>, maxRestarts: int)
    requires Quiet(s, maxRestarts) && s.live == {} && Run(s, es, maxRestarts).Some?
    ensures Run(s, es, maxRestarts).value.live == {}
    decreases |es|
  {
    if es != [] {
      QuietStep(s, es[0], maxRestarts);
      QuietStaysEmpty(Apply(s, es[0], maxRestarts), es[1..], maxRestarts);
    }
  }

  lemma {:induction false} StopperKeepsItsChannel(s: Sys, t: nat, es: seq<Event>, maxRestarts: int)
    requires t < |s.threads| && (s.threads[t].StopWaiting? || s.threads[t].Ended?) && Run(s, es, maxRestarts).Some?
    ensures var s' := Run(s, es, maxRestarts).value;
            t < |s'.threads| && (s'.threads[t] == s.threads[t] || s'.threads[t].Ended?)
    decreases |es|
  {
    if es != [] {
      StopperKeepsItsChannel(Apply(s, es[0], maxRestarts), t, es[1..], maxRestarts);
    }
  }

  /** A stop that lands during the backoff, or anywhere else before the process is published, is
      forgotten: there is a continuation in which the engine runs and the stop flag is down. */
  lemma StopDuringBackoffIsForgotten(s: Sys, t: nat, clearDesired: bool, maxRestarts: int) returns (es: seq<Event>)
    requires Reachable(s, maxRestarts) && At(s, t, Launching)
    ensures Run(Apply(s, StopEnters(clearDesired), maxRestarts), es, maxRestarts).Some?
    ensures var s' := Run(Apply(s, StopEnters(clearDesired), maxRestarts), es, maxRestarts).value;
            s'.live == {s.started} && s'.h.cmd == Some(s.started) && !s'.h.stopping
  {
    ReachableInv(s, maxRestarts);
    assert DriverFits(s, s.threads[t]);
    var s1 := Apply(s, StopEnters(clearDesired), maxRestarts);
    var s2 := Apply(s1, StartProcess(t), maxRestarts);
    es := [StartProcess(t), Publish(t)];
    assert es[1..] == [Publish(t)];
    assert Run(s2, [Publish(t)], maxRestarts) == Run(Apply(s2, Publish(t), maxRestarts), [], maxRestarts);
  }

  /** Over every run, whether the model should be running changes only on an operator's stop. */
  lemma {:induction false} OnlyOperatorStopClearsDesired(s: Sys, es: seq<Event>, maxRestarts: int)
    requires Run(s, es, maxRestarts).Some?
    ensures Run(s, es, maxRestarts).value.h.desired <==> s.h.desired && StopEnters(true) !in es
    decreases |es|
  {
    if es != [] {
      assert es == [es[0]] + es[1..];
      OnlyOperatorStopClearsDesired(Apply(s, es[0], maxRestarts), es[1..], maxRestarts);
    }
  }

  // ---------------------------------------------------------------------------
  // When a stop can return
  // ---------------------------------------------------------------------------

  /** A goroutine that may yet close the instance's present channel. */
  predicate MayClose(pc: Pc) {
    pc.Launching? || pc.Publishing? || pc.Waiting?
  }

  ghost predicate Attended(s: Sys) {
    exists t :: 0 <= t < |s.threads| && MayClose(s.threads[t])
  }

  /** No goroutine is left that closes a channel, now or later. */
  ghost predicate Abandoned(s: Sys) {
    forall t | 0 <= t < |s.threads| :: !MayClose(s.threads[t]) && !s.threads[t].SawExit?
  }

  lemma {:induction false} AbandonedStaysSo(s: Sys, es: seq<Event>, maxRestarts: int)
    requires Abandoned(s) && Run(s, es, maxRestarts).Some?
    ensures Abandoned(Run(s, es, maxRestarts).value) && Run(s, es, maxRestarts).value.h.closed == s.h.closed
    decreases |es|
  {
    if es != [] {
      var s1 := Apply(s, es[0], maxRestarts);
      AbandonedStep(s, es[0], maxRestarts);
      AbandonedStaysSo(s1, es[1..], maxRestarts);
    }
  }

  lemma AbandonedStep(s: Sys, e: Event, maxRestarts: int)
    requires Abandoned(s) && Enabled(s, e)
    ensures Abandoned(Apply(s, e, maxRestarts)) && Apply(s, e, maxRestarts).h.closed == s.h.closed
  {
    var s' := Apply(s, e, maxRestarts);
    if e.StartProcess? || e.StartFails? || e.Publish? || e.ReapFirst? || e.ReapStopped? || e.ReapSecond? {
      assert false;
    } else {
      assert forall t | 0 <= t < |s.threads| :: s'.threads[t] == s.threads[t] || s'.threads[t].Ended?;
      assert forall t | |s.threads| <= t < |s'.threads| :: s'.threads[t].StopWaiting?;
    }
  }

  /** Where a goroutine may close the present channel, a continuation in which it does, and in which
      nothing else moves. */
  lemma ChannelCanClose(s: Sys, t: nat, maxRestarts: int) returns (es: seq<Event>)
    requires t < |s.threads| && MayClose(s.threads[t])
    ensures Run(s, es, maxRestarts).Some?
    ensures var s' := Run(s, es, maxRestarts).value;
            && s.h.exited in s'.h.closed && |s.threads| <= |s'.threads|
            && forall u | 0 <= u < |s.threads| && u != t :: s'.threads[u] == s.threads[u]
    decreases match s.threads[t] case Launching => 3 case Publishing(_) => 2 case _ => 1, |s.live|
  {
    match s.threads[t] {
      case Launching =>
        var rest := ChannelCanClose(Apply(s, StartProcess(t), maxRestarts), t, maxRestarts);
        es := [StartProcess(t)] + rest;
        assert es[1..] == rest;
      case Publishing(_) =>
        var rest := ChannelCanClose(Apply(s, Publish(t), maxRestarts), |s.threads| + 1, maxRestarts);
        es := [Publish(t)] + rest;
        assert es[1..] == rest;
      case Waiting(p) =>
        if p in s.live {
          var rest := ChannelCanClose(Apply(s, Dies(p), maxRestarts), t, maxRestarts);
          es := [Dies(p)] + rest;
          assert es[1..] == rest;
        } else {
          es := [ReapFirst(t)];
          assert Run(s, es, maxRestarts) == Run(Apply(s, ReapFirst(t), maxRestarts), [], maxRestarts);
        }
    }
  }

  /** The stop that enters at `s` returns in some continuation. */
  ghost predicate StopCanReturn(s: Sys, clearDesired: bool, maxRestarts: int) {
    exists es :: ReturnsAfter(s, clearDesired, es, maxRestarts)
  }

  ghost predicate ReturnsAfter(s: Sys, clearDesired: bool, es: seq<Event>, maxRestarts: int) {
    var s1 := Apply(s, StopEnters(clearDesired), maxRestarts);
    Run(s1, es, maxRestarts).Some? && Enabled(Run(s1, es, maxRestarts).value, StopReturns(|s.threads|))
  }

  /** A stop that has entered can return exactly when no process was ever published, or its channel is
      closed, or a goroutine is launching, publishing or waiting for a process. Otherwise it blocks for
      ever. */
  lemma StopCanReturnIff(s: Sys, clearDesired: bool, maxRestarts: int)
    requires Reachable(s, maxRestarts)
    ensures StopCanReturn(s, clearDesired, maxRestarts)
       <==> s.h.cmd.None? || s.h.exited in s.h.closed || Attended(s)
  {
    var s1 := Apply(s, StopEnters(clearDesired), maxRestarts);
    var t := |s.threads|;
    ReachableInv(s, maxRestarts);
    if s.h.cmd.None? || s.h.exited in s.h.closed {
      assert Run(s1, [], maxRestarts) == Some(s1);
      assert ReturnsAfter(s, clearDesired, [], maxRestarts);
    } else if Attended(s) {
      var u :| 0 <= u < |s.threads| && MayClose(s.threads[u]);
      assert s1.threads[u] == s.threads[u];
      var es := ChannelCanClose(s1, u, maxRestarts);
      assert ReturnsAfter(s, clearDesired, es, maxRestarts);
    } else {
      forall u | 0 <= u < |s.threads| ensures !s.threads[u].SawExit? { assert DriverFits(s, s.threads[u]); }
      assert Abandoned(s1);
      forall es | Run(s1, es, maxRestarts).Some? ensures !ReturnsAfter(s, clearDesired, es, maxRestarts) {
        AbandonedStaysSo(s1, es, maxRestarts);
        StopperKeepsItsChannel(s1, t, es, maxRestarts);
      }
    }
  }

  /** Such a state comes about when a relaunch fails: failed, wanted, and no stop ever returns. */
  lemma FailedRelaunchBlocksStops(maxRestarts: int) returns (s: Sys)
    requires maxRestarts > 0
    ensures Reachable(s, maxRestarts) && s.h.state == Failed && s.h.desired
    ensures !StopCanReturn(s, true, maxRestarts) && !StopCanReturn(s, false, maxRestarts)
  {
    s := Relaunching(maxRestarts);
    ReachableStep(s, StartFails(2), maxRestarts);
    s := Apply(s, StartFails(2), maxRestarts);
    ReachableStep(s, SetLaunchFailed(2), maxRestarts);
    s := Apply(s, SetLaunchFailed(2), maxRestarts);
    StopCanReturnIff(s, true, maxRestarts);
    StopCanReturnIff(s, false, maxRestarts);
  }

  lemma Relaunching(maxRestarts: int) returns (s: Sys)
    requires maxRestarts > 0
    ensures Reachable(s, maxRestarts) && s.threads == [Ended, Probing, Launching]
    ensures s.h.desired && s.h.cmd == Some(0) && s.h.exited == 1 && s.h.closed == {0}
  {
    s := Published(maxRestarts);
    ReachableStep(s, Dies(0), maxRestarts);
    s := Apply(s, Dies(0), maxRestarts);
    ReachableStep(s, ReapFirst(2), maxRestarts);
    s := Apply(s, ReapFirst(2), maxRestarts);
    ReachableStep(s, ReapSecond(2), maxRestarts);
    s := Apply(s, ReapSecond(2), maxRestarts);
  }

  lemma Published(maxRestarts: int) returns (s: Sys)
    ensures Reachable(s, maxRestarts)
    ensures s.h == PublishProcess(FreshInstance(), 0) && s.threads == [Ended, Probing, Waiting(0)] && s.live == {0}
  {
    s := Initial();
    assert Run(s, [], maxRestarts) == Some(s);
    ReachableStep(s, StartProcess(0), maxRestarts);
    s := Apply(s, StartProcess(0), maxRestarts);
    ReachableStep(s, Publish(0), maxRestarts);
    s := Apply(s, Publish(0), maxRestarts);
  }

  lemma {:induction false} RunOneMore(s: Sys, es: seq<Event>, e: Event, maxRestarts: int)
    requires Run(s, es, maxRestarts).Some? && Enabled(Run(s, es, maxRestarts).value, e)
    ensures Run(s, es + [e], maxRestarts) == Some(Apply(Run(s, es, maxRestarts).value, e, maxRestarts))
    decreases |es|
  {
    if es == [] {
      assert Run(Apply(s, e, maxRestarts), ([] + [e])[1..], maxRestarts) == Some(Apply(s, e, maxRestarts));
    } else {
      assert (es + [e])[1..] == es[1..] + [e];
      RunOneMore(Apply(s, es[0], maxRestarts), es[1..], e, maxRestarts);
    }
  }

  lemma ReachableStep(s: Sys, e: Event, maxRestarts: int)
    requires Reachable(s, maxRestarts) && Enabled(s, e)
    ensures Reachable(Apply(s, e, maxRestarts), maxRestarts)
  {
    var es :| Run(Initial(), es, maxRestarts) == Some(s);
    RunOneMore(Initial(), es, e, maxRestarts);
  }

  // ---------------------------------------------------------------------------
  // When a new start leaves an engine behind
  // ---------------------------------------------------------------------------

  /** An engine is alive exactly when the driving goroutine holds it: it is about to publish it, or it
      is waiting for it to exit. */
  lemma AliveIff(s: Sys, maxRestarts: int)
    requires Reachable(s, maxRestarts)
    ensures s.live != {} <==>
            exists t :: 0 <= t < |s.threads| && (s.threads[t].Publishing? || s.threads[t].Waiting?) && s.threads[t].pid in s.live
  {
    ReachableInv(s, maxRestarts);
    if p :| p in s.live {
      var t :| 0 <= t < |s.threads| && Drives(s.threads[t]);
      assert DriverFits(s, s.threads[t]);
    }
  }

  /** Instances do become ready, with their engine alive. */
  lemma AnsweredEngineIsReady(maxRestarts: int) returns (s: Sys)
    ensures Reachable(s, maxRestarts) && s.h.state == Ready && s.live == {0} && s.h.cmd == Some(0)
  {
    s := Published(maxRestarts);
    ReachableStep(s, ProbeReady(1), maxRestarts);
    s := Apply(s, ProbeReady(1), maxRestarts);
  }

  /** An instance that reads failed, so that a new Start is accepted and replaces it, can have its engine
      alive: a probe that times out does not touch the process. */
  lemma TimedOutEngineLivesOn(maxRestarts: int) returns (s: Sys)
    ensures Reachable(s, maxRestarts) && s.h.state == Failed && s.live == {0}
  {
    s := Published(maxRestarts);
    ReachableStep(s, ProbeTimesOut(1), maxRestarts);
    s := Apply(s, ProbeTimesOut(1), maxRestarts);
  }

  // ---------------------------------------------------------------------------
  // The object the goroutines share
  // ---------------------------------------------------------------------------

  /** One engine process serving one model. Each method is one critical section. */
  class Instance {
    var state: Status
    var stopping: bool
    var desired: bool
    var restarts: nat
    var cmd: Option<Pid>
    var exited: Chan
    var made: nat
    var closed: set<Chan>

    ghost function View(): Shared
      reads this
    {
      Shared(state, stopping, desired, restarts, cmd, exited, made, closed)
    }

    constructor ()
      ensures View() == FreshInstance()
    {
      state, stopping, desired, restarts, cmd := Starting, false, true, 0, None;
      exited, made, closed := 0, 1, {};
    }

    /** The end of `launch`: record the process and clear the stop flag. */
    method Publish(p: Pid)
      modifies this
      ensures View() == PublishProcess(old(View()), p)
    {
      cmd := Some(p);
      stopping := false;
    }

    /** The reaper's first critical section. */
    method NoteExit() returns (wasStopping: bool)
      modifies this
      ensures View() == CloseExited(old(View())) && wasStopping == old(stopping)
      ensures exited in closed
    {
      wasStopping := stopping;
      if exited !in closed {
        closed := closed + {exited};
      }
    }

    /** The reaper's second critical section. */
    method Decide(maxRestarts: int) returns (relaunch: bool)
      modifies this
      ensures View() == DecideRestart(old(View()), maxRestarts)
      ensures relaunch == (old(restarts) < maxRestarts)
      ensures relaunch ==> state == Starting && exited == old(made)
    {
      if restarts >= maxRestarts {
        state := Failed;
        return false;
      }
      restarts := restarts + 1;
      state := Starting;
      exited := made;
      made := made + 1;
      return true;
    }

    /** The probe's locked update. */
    method ProbeAnswered() returns (ready: bool)
      modifies this
      ensures View() == MarkReady(old(View()))
      ensures ready == (old(state) == Starting || old(state) == Ready)
      ensures ready ==> state == Ready
      ensures !ready ==> state == old(state) && (state == Stopped || state == Failed)
    {
      if state == Stopped || state == Failed {
        return false;
      }
      state := Ready;
      return true;
    }

    /** The critical section of `stop`: what the stopper then signals and waits for. */
    method EnterStop(clearDesired: bool) returns (ch: Chan, process: Option<Pid>)
      modifies this
      ensures View() == RequestStop(old(View()), clearDesired)
      ensures ch == old(exited) && process == old(cmd)
    {
      stopping := true;
      if clearDesired {
        desired := false;
      }
      ch, process := exited, cmd;
    }

    method Set(st: Status)
      modifies this
      ensures View() == SetState(old(View()), st)
    {
      state := st;
    }
  }
}
