/**
 Admission control in the upstream pool. The first half is one backend's slot counter under any
 number of goroutines: a load, a look at the limit, a compare-and-swap and a release are the atomic
 steps. The second half is the choice of a replica, run alone.
 */
module Admission {
  import opened Options

  // ---------------------------------------------------------------------------
  // The counter under concurrency
  // ---------------------------------------------------------------------------

  /** Where a goroutine stands in `acquire`. */
  datatype Pc =
    | Idle              // about to load the counter
    | Seen(cur: int)    // loaded a value, about to look at the limit
    | Loaded(cur: int)  // loaded a value below the limit, about to compare and swap
    | Refused           // returned false
    | Granted           // returned true

  /** `leases[i]` says whether lease i has been released. */
  datatype Sys = Sys(inflight: int, limit: int, threads: seq<Pc>, leases: seq<bool>)

  datatype Event =
    | Arrive
    | Load(t: nat)
    | Check(t: nat)
    | Cas(t: nat)
    | Release(lease: nat)
    | SetLimit(limit: int)

  predicate Enabled(s: Sys, e: Event) {
    match e
    case Arrive => true
    case Load(t) => t < |s.threads| && s.threads[t] == Idle
    case Check(t) => t < |s.threads| && s.threads[t].Seen?
    case Cas(t) => t < |s.threads| && s.threads[t].Loaded?
    case Release(l) => l < |s.leases|
    case SetLimit(_) => true
  }

  function Apply(s: Sys, e: Event): Sys
    requires Enabled(s, e)
  {
    match e
    case Arrive => s.(threads := s.threads + [Idle])
    case Load(t) => s.(threads := s.threads[t := Seen(s.inflight)])
    case Check(t) =>
      var cur := s.threads[t].cur;
      s.(threads := s.threads[t := if cur >= s.limit then Refused else Loaded(cur)])
    case Cas(t) =>
      if s.inflight == s.threads[t].cur
      then s.(inflight := s.inflight + 1, threads := s.threads[t := Granted], leases := s.leases + [false])
      else s.(threads := s.threads[t := Idle])
    case Release(l) =>
      // The lease's once guard lets only the first call through.
      if s.leases[l] then s else s.(inflight := s.inflight - 1, leases := s.leases[l := true])
    case SetLimit(m) => s.(limit := m)
  }

  function Run(s: Sys, es: seq<Event>): Option<Sys>
    decreases |es|
  {
    if es == [] then Some(s)
    else if !Enabled(s, es[0]) then None
    else Run(Apply(s, es[0]), es[1..])
  }

  /** The number of leases not yet released. */
  function Outstanding(leases: seq<bool>): nat {
    if leases == [] then 0 else (if leases[|leases| - 1] then 0 else 1) + Outstanding(leases[..|leases| - 1])
  }

  /** The largest limit in force at any point of the events. */
  function Peak(limit: int, es: seq<Event>): int
    decreases |es|
  {
    if es == [] then limit
    else
      var rest := Peak(if es[0].SetLimit? then es[0].limit else limit, es[1..]);
      if rest > limit then rest else limit
  }

  /** The counter is exact, and both it and every value a goroutine is about to swap in fit `peak`. */
  ghost predicate Exact(s: Sys, peak: int) {
    && s.inflight == Outstanding(s.leases)
    && (s.inflight <= peak || s.inflight == 0)
    && s.limit <= peak
    && (forall t | 0 <= t < |s.threads| && s.threads[t].Loaded? :: s.threads[t].cur < peak)
  }

  lemma OutstandingAppend(leases: seq<bool>, b: bool)
    ensures Outstanding(leases + [b]) == Outstanding(leases) + if b then 0 else 1
  {
    assert (leases + [b])[..|leases|] == leases;
  }

  lemma {:induction false} OutstandingRelease(leases: seq<bool>, l: nat)
    requires l < |leases| && !leases[l]
    ensures Outstanding(leases[l := true]) == Outstanding(leases) - 1
    decreases |leases|
  {
    var front := leases[..|leases| - 1];
    if l < |front| {
      OutstandingRelease(front, l);
      assert leases[l := true][..|leases| - 1] == front[l := true];
    } else {
      assert leases[l := true][..|leases| - 1] == front;
    }
  }

  lemma CasKeepsExact(s: Sys, t: nat, peak: int)
    requires Exact(s, peak) && Enabled(s, Cas(t))
    ensures Exact(Apply(s, Cas(t)), peak)
  {
    var s' := Apply(s, Cas(t));
    OutstandingAppend(s.leases, false);
    assert s.threads[t].cur < peak;
    assert forall u | 0 <= u < |s'.threads| && s'.threads[u].Loaded? :: s'.threads[u] == s.threads[u];
  }

  lemma ReleaseKeepsExact(s: Sys, l: nat, peak: int)
    requires Exact(s, peak) && Enabled(s, Release(l))
    ensures Exact(Apply(s, Release(l)), peak)
  {
    if !s.leases[l] { OutstandingRelease(s.leases, l); }
  }

  lemma StepKeepsExact(s: Sys, e: Event, peak: int)
    requires Exact(s, peak) && Enabled(s, e) && (e.SetLimit? ==> e.limit <= peak)
    ensures Exact(Apply(s, e), peak)
  {
    match e {
      case Cas(t) => CasKeepsExact(s, t, peak);
      case Release(l) => ReleaseKeepsExact(s, l, peak);
      case _ =>
    }
  }

  lemma {:induction false} PeakBounds(limit: int, es: seq<Event>, i: nat)
    ensures limit <= Peak(limit, es)
    ensures i < |es| && es[i].SetLimit? ==> es[i].limit <= Peak(limit, es)
    decreases |es|
  {
    if es != [] {
      var next := if es[0].SetLimit? then es[0].limit else limit;
      PeakBounds(next, es[1..], if i > 0 then i - 1 else 0);
    }
  }

  lemma {:induction false} RunKeepsExact(s: Sys, es: seq<Event>, peak: int)
    requires Exact(s, peak) && Run(s, es).Some?
    requires forall i | 0 <= i < |es| && es[i].SetLimit? :: es[i].limit <= peak
    ensures Exact(Run(s, es).value, peak)
    decreases |es|
  {
    if es != [] {
      StepKeepsExact(s, es[0], peak);
      RunKeepsExact(Apply(s, es[0]), es[1..], peak);
    }
  }

  function Fresh(limit: int): Sys {
    Sys(0, limit, [], [])
  }

  /** In every interleaving the counter equals the outstanding leases, is never negative, and never
      exceeds the largest limit ever in force. */
  lemma CounterIsExact(limit: int, es: seq<Event>)
    requires Run(Fresh(limit), es).Some?
    ensures var s := Run(Fresh(limit), es).value;
            s.inflight == Outstanding(s.leases) && 0 <= s.inflight && (s.inflight <= Peak(limit, es) || s.inflight == 0)
  {
    var peak := Peak(limit, es);
    PeakBounds(limit, es, 0);
    forall i | 0 <= i < |es| && es[i].SetLimit? ensures es[i].limit <= peak { PeakBounds(limit, es, i); }
    RunKeepsExact(Fresh(limit), es, peak);
  }

  /** With a limit that never changes, that limit is never exceeded. */
  lemma FixedLimitHolds(limit: int, es: seq<Event>)
    requires 0 <= limit && Run(Fresh(limit), es).Some?
    requires forall i | 0 <= i < |es| :: !es[i].SetLimit?
    ensures Run(Fresh(limit), es).value.inflight <= limit
  {
    RunKeepsExact(Fresh(limit), es, limit);
  }

  /** Releasing a lease twice is releasing it once. */
  lemma ReleaseIsOnce(s: Sys, l: nat)
    requires Enabled(s, Release(l))
    ensures Apply(Apply(s, Release(l)), Release(l)) == Apply(s, Release(l))
  {
  }

  predicate ByThread(e: Event, t: nat) {
    e == Load(t) || e == Cas(t)
  }

  /** Until it swaps or loads again, a goroutine holds the value it loaded. */
  lemma {:induction false} HoldsItsValue(s: Sys, t: nat, es: seq<Event>, cur: int)
    requires t < |s.threads| && (s.threads[t] == Seen(cur) || s.threads[t] == Loaded(cur) || s.threads[t] == Refused)
    requires (forall k | 0 <= k < |es| :: !ByThread(es[k], t)) && Run(s, es).Some?
    ensures var s' := Run(s, es).value;
            t < |s'.threads| && (s'.threads[t].Loaded? ==> s'.threads[t].cur == cur)
    decreases |es|
  {
    if es != [] {
      HoldsItsValue(Apply(s, es[0]), t, es[1..], cur);
    }
  }

  /** The step that first moved the counter. */
  lemma {:induction false} FirstMove(s: Sys, es: seq<Event>) returns (i: nat)
    requires Run(s, es).Some? && Run(s, es).value.inflight != s.inflight
    ensures i < |es| && (es[i].Cas? || es[i].Release?)
    ensures Run(s, es[..i]).Some? && Run(s, es[..i + 1]).Some?
    ensures Run(s, es[..i]).value.inflight == s.inflight != Run(s, es[..i + 1]).value.inflight
    decreases |es|
  {
    var s1 := Apply(s, es[0]);
    if s1.inflight != s.inflight {
      i := 0;
      assert es[..1][1..] == [];
      assert Run(s, es[..1]) == Run(s1, []);
    } else {
      var j := FirstMove(s1, es[1..]);
      i := j + 1;
      assert es[..i][1..] == es[1..][..j];
      assert es[..i + 1][1..] == es[1..][..j + 1];
    }
  }

  /** A goroutine's compare-and-swap is about to fail only when some other goroutine's swap or release
      moved the counter after its load. */
  lemma CasFailsOnlyAfterInterference(s: Sys, t: nat, es: seq<Event>) returns (i: nat)
    requires Enabled(s, Load(t)) && forall k | 0 <= k < |es| :: !ByThread(es[k], t)
    requires Run(Apply(s, Load(t)), es).Some?
    requires var s' := Run(Apply(s, Load(t)), es).value;
             Enabled(s', Cas(t)) && s'.inflight != s'.threads[t].cur
    ensures i < |es| && !ByThread(es[i], t) && (es[i].Cas? || es[i].Release?)
    ensures var s1 := Apply(s, Load(t));
            && Run(s1, es[..i]).Some? && Run(s1, es[..i + 1]).Some?
            && Run(s1, es[..i]).value.inflight == s.inflight != Run(s1, es[..i + 1]).value.inflight
  {
    var s1 := Apply(s, Load(t));
    HoldsItsValue(s1, t, es, s.inflight);
    i := FirstMove(s1, es);
  }

  /** The steps of a goroutine that arrives, loads the counter and looks at the limit, with `rest` to follow. */
  function Looking(t: nat, rest: seq<Event>): seq<Event> { [Arrive] + ([Load(t)] + ([Check(t)] + rest)) }

  /** The state with one goroutine more. */
  function With(s: Sys, pc: Pc): Sys { s.(threads := s.threads + [pc]) }

  lemma LooksAlone(s: Sys, t: nat, rest: seq<Event>)
    requires t == |s.threads|
    ensures Run(s, Looking(t, rest)) == Run(With(s, if s.inflight < s.limit then Loaded(s.inflight) else Refused), rest)
  {
    var s1 := Apply(s, Arrive);
    var s2 := With(s, Seen(s.inflight));
    assert Apply(s1, Load(t)).threads == s2.threads;
    assert Apply(s2, Check(t)).threads == With(s, if s.inflight < s.limit then Loaded(s.inflight) else Refused).threads;
    RunFirst(s2, Check(t), rest);
    RunFirst(s1, Load(t), [Check(t)] + rest);
    RunFirst(s, Arrive, [Load(t)] + ([Check(t)] + rest));
  }

  lemma SwapsAlone(s: Sys, s': Sys, t: nat)
    requires t == |s.threads| && s' == With(s, Granted).(inflight := s.inflight + 1, leases := s.leases + [false])
    ensures Run(With(s, Loaded(s.inflight)), [Cas(t)]) == Some(s')
  {
    var s1 := With(s, Loaded(s.inflight));
    assert Apply(s1, Cas(t)).threads == s'.threads;
    assert [Cas(t)] == [Cas(t)] + [];
    RunFirst(s1, Cas(t), []);
  }

  /** Run alone, a goroutine that finds the counter below the limit is granted a slot and a lease, and one
      that does not is refused and changes nothing. */
  lemma AloneIsAnswered(s: Sys, s': Sys, t: nat)
    requires t == |s.threads| && s' == With(s, Granted).(inflight := s.inflight + 1, leases := s.leases + [false])
    ensures s.inflight < s.limit ==> Run(s, Looking(t, [Cas(t)])) == Some(s')
    ensures s.inflight >= s.limit ==> Run(s, Looking(t, [])) == Some(With(s, Refused))
  {
    LooksAlone(s, t, [Cas(t)]);
    SwapsAlone(s, s', t);
    LooksAlone(s, t, []);
  }

  lemma RunFirst(s: Sys, e: Event, rest: seq<Event>)
    requires Enabled(s, e)
    ensures Run(s, [e] + rest) == Run(Apply(s, e), rest)
  {
    assert ([e] + rest)[1..] == rest;
  }

  // ---------------------------------------------------------------------------
  // Choosing a replica
  // ---------------------------------------------------------------------------

  /** What the choice looks at. */
  datatype Replica = Replica(inflight: int, maxConc: int, weight: int, healthy: bool)

  predicate HasRoom(r: Replica) {
    r.healthy && r.inflight < r.maxConc
  }

  function LoadOf(r: Replica): real
    requires r.weight > 0
  {
    r.inflight as real / r.weight as real
  }

  const MAX_LOAD := 1073741824.0  // the scan's starting value, 2 to the power 30

  ghost predicate Weighted(rs: seq<Replica>) {
    forall i | 0 <= i < |rs| :: rs[i].weight > 0
  }

  /** Replica `b` is healthy and no healthy replica carries less load. */
  ghost predicate LeastLoaded(rs: seq<Replica>, b: nat)
    requires Weighted(rs)
  {
    b < |rs| && rs[b].healthy && forall i | 0 <= i < |rs| && rs[i].healthy :: LoadOf(rs[b]) <= LoadOf(rs[i])
  }

  datatype Choice = NoBackend | NoCapacity | Take(index: nat)

  /** What `Acquire` promises about the replica it picks. */
  ghost predicate RightChoice(rs: seq<Replica>, c: Choice)
    requires Weighted(rs)
  {
    match c
    case NoBackend => forall i | 0 <= i < |rs| :: !rs[i].healthy
    case NoCapacity => (exists i :: 0 <= i < |rs| && rs[i].healthy) && forall i | 0 <= i < |rs| :: !HasRoom(rs[i])
    case Take(k) =>
      && k < |rs| && HasRoom(rs[k])
      // a busier replica is taken only when a least loaded one is full
      && (LeastLoaded(rs, k)
          || (exists b :: 0 <= b < |rs| && LeastLoaded(rs, b) && !HasRoom(rs[b]))
          || (forall i | 0 <= i < |rs| && rs[i].healthy :: LoadOf(rs[i]) >= MAX_LOAD))
  }

  /** Run alone, a request gets a slot exactly when some healthy replica has one free, and is told
      there is no backend exactly when none is healthy. */
  lemma AdmittedIffRoom(rs: seq<Replica>, c: Choice)
    requires Weighted(rs) && RightChoice(rs, c)
    ensures c.Take? <==> exists i :: 0 <= i < |rs| && HasRoom(rs[i])
    ensures c.NoBackend? <==> forall i | 0 <= i < |rs| :: !rs[i].healthy
  {
    match c {
      case NoBackend =>
      case NoCapacity =>
      case Take(k) => assert rs[k].healthy;
    }
  }

  class Backend {
    var inflight: int
    var maxConc: int
    const weight: int
    var healthy: bool

    constructor (maxConc: int, weight: int)
      ensures inflight == 0 && this.maxConc == maxConc && this.weight == weight && healthy
    {
      this.inflight, this.maxConc, this.weight, this.healthy := 0, maxConc, weight, true;
    }

    function View(): Replica
      reads this
    {
      Replica(inflight, maxConc, weight, healthy)
    }

    /** Take a slot without blocking. Run alone the compare-and-swap cannot fail, so the retry loop
        of the original goes round once; the interleaved form is `Apply` above. */
    method TryAcquire() returns (ok: bool)
      modifies this`inflight
      ensures ok == (old(inflight) < maxConc)
      ensures inflight == old(inflight) + if ok then 1 else 0
    {
      var cur := inflight;
      if cur >= maxConc {
        return false;
      }
      inflight := cur + 1;
      return true;
    }

    method GiveBack()
      modifies this`inflight
      ensures inflight == old(inflight) - 1
    {
      inflight := inflight - 1;
    }
  }

  /** A held admission slot. */
  class Lease {
    const b: Backend
    var released: bool

    constructor (b: Backend)
      ensures this.b == b && !released
    {
      this.b, this.released := b, false;
    }

    method Release()
      modifies this, b`inflight
      ensures released
      ensures b.inflight == old(b.inflight) - if old(released) then 0 else 1
    {
      if !released {
        released := true;
        b.GiveBack();
      }
    }
  }

  function Views(cs: seq<Backend>): (rs: seq<Replica>)
    reads cs
    ensures |rs| == |cs| && forall i | 0 <= i < |cs| :: rs[i] == cs[i].View()
  {
    if cs == [] then [] else Views(cs[..|cs| - 1]) + [cs[|cs| - 1].View()]
  }

  /** The scan for the least loaded healthy replica. */
  method FindLeastLoaded(cs: seq<Backend>) returns (best: Option<nat>, anyHealthy: bool)
    requires forall b | b in cs :: b.weight > 0
    ensures anyHealthy <==> exists k :: 0 <= k < |cs| && cs[k].healthy
    ensures best.Some? ==> best.value < |cs| && LeastLoaded(Views(cs), best.value)
    ensures best.None? ==> forall i | 0 <= i < |cs| && cs[i].healthy :: LoadOf(Views(cs)[i]) >= MAX_LOAD
  {
    ghost var rs := Views(cs);
    best, anyHealthy := None, false;
    var bestLoad := MAX_LOAD;
    for i := 0 to |cs|
      invariant anyHealthy == exists k :: 0 <= k < i && rs[k].healthy
      invariant bestLoad <= MAX_LOAD
      invariant forall k | 0 <= k < i && rs[k].healthy :: LoadOf(rs[k]) >= bestLoad
      invariant best.None? ==> bestLoad == MAX_LOAD
      invariant best.Some? ==> best.value < i && rs[best.value].healthy && LoadOf(rs[best.value]) == bestLoad
    {
      assert cs[i].View() == rs[i];
      if cs[i].healthy {
        anyHealthy := true;
        var load := cs[i].inflight as real / cs[i].weight as real;
        if load < bestLoad {
          best, bestLoad := Some(i), load;
        }
      }
    }
  }

  /** Reserve a slot on the first healthy replica that has one. */
  method TakeFirst(cs: seq<Backend>) returns (r: Option<nat>)
    modifies cs`inflight
    ensures r.None? ==> forall i | 0 <= i < |cs| :: !old(HasRoom(cs[i].View())) && cs[i].inflight == old(cs[i].inflight)
    ensures r.Some? ==> r.value < |cs| && old(HasRoom(cs[r.value].View()))
                        && cs[r.value].inflight == old(cs[r.value].inflight) + 1
                        && forall i | 0 <= i < |cs| && cs[i] != cs[r.value] :: cs[i].inflight == old(cs[i].inflight)
  {
    for i := 0 to |cs|
      invariant forall k | 0 <= k < i :: !old(HasRoom(cs[k].View()))
      invariant forall k | 0 <= k < |cs| :: cs[k].inflight == old(cs[k].inflight)
    {
      if cs[i].healthy {
        var ok := cs[i].TryAcquire();
        if ok {
          return Some(i);
        }
      }
    }
    return None;
  }

  lemma FallbackIsRight(rs: seq<Replica>, best: Option<nat>, k: nat)
    requires Weighted(rs) && k < |rs| && HasRoom(rs[k])
    requires best.Some? ==> LeastLoaded(rs, best.value) && !HasRoom(rs[best.value])
    requires best.None? ==> forall i | 0 <= i < |rs| && rs[i].healthy :: LoadOf(rs[i]) >= MAX_LOAD
    ensures RightChoice(rs, Take(k))
  {
  }

  /** Pick the least loaded healthy replica and reserve a slot on it, falling back to any with room. */
  method Acquire(configured: seq<Backend>, dynamic: seq<Backend>) returns (choice: Choice, lease: Lease?)
    requires forall b | b in configured + dynamic :: b.weight > 0
    modifies configured`inflight, dynamic`inflight
    ensures old(RightChoice(Views(configured + dynamic), choice))
    ensures (lease != null) == choice.Take?
    ensures choice.Take? ==> fresh(lease) && !lease.released && lease.b == (configured + dynamic)[choice.index]
    ensures choice.Take? ==> lease.b.inflight == old((configured + dynamic)[choice.index].inflight) + 1
    ensures forall b | b in configured + dynamic && (choice.Take? ==> b != (configured + dynamic)[choice.index]) ::
              b.inflight == old(b.inflight)
  {
    var cs := configured + dynamic;
    ghost var rs := Views(cs);
    var best, anyHealthy := FindLeastLoaded(cs);
    if !anyHealthy {
      return NoBackend, null;
    }
    if best.Some? {
      var ok := cs[best.value].TryAcquire();
      if ok {
        lease := new Lease(cs[best.value]);
        return Take(best.value), lease;
      }
    }
    var r := TakeFirst(cs);
    if r.None? {
      return NoCapacity, null;
    }
    FallbackIsRight(rs, best, r.value);
    lease := new Lease(cs[r.value]);
    return Take(r.value), lease;
  }
}
