/** The password-attempt limiter: ten tries per address in any fifteen minutes. Each
    address has a slice of attempt times that is compacted in its own backing array,
    and a crowded table evicts stale addresses. Times are in nanoseconds. */
module LoginLimiter {
  const PERIOD: nat := 900_000_000_000
  const MAX_TRIES: nat := 10
  const CROWDED: nat := 10_000

  /** The attempts still inside the period. */
  function Live(ts: seq<nat>, now: nat): seq<nat> {
    if ts == [] then []
    else
      var n := |ts| - 1;
      Live(ts[..n], now) + if now - ts[n] < PERIOD then [ts[n]] else []
  }

  type Attempts = map<string, seq<nat>>

  function Past(a: Attempts, ip: string): seq<nat> {
    if ip in a then a[ip] else []
  }

  predicate Stale(ts: seq<nat>, now: nat) {
    ts == [] || now - ts[|ts| - 1] > PERIOD
  }

  function Evicted(a: Attempts, now: nat): Attempts {
    if |a| > CROWDED then map k | k in a && !Stale(a[k], now) :: a[k] else a
  }

  predicate Allowed(a: Attempts, ip: string, now: nat) {
    |Live(Past(a, ip), now)| < MAX_TRIES
  }

  function Recorded(a: Attempts, ip: string, now: nat): Attempts {
    var live := Live(Past(a, ip), now);
    Evicted(a, now)[ip := if Allowed(a, ip, now) then live + [now] else live]
  }

  // ----- The limiter -----

  /** A slice: the first `len` elements of a backing array. */
  datatype Slice = Slice(buf: array<nat>, len: nat)

  /** Filters a slice in place; what lies past the kept part is as it was. */
  method Compact(buf: array<nat>, len: nat, now: nat) returns (kept: nat)
    requires len <= buf.Length
    modifies buf
    ensures kept <= len
    ensures buf[..kept] == Live(old(buf[..len]), now)
    ensures forall i :: kept <= i < buf.Length ==> buf[i] == old(buf[i])
    ensures kept == len ==> forall i :: 0 <= i < len ==> buf[i] == old(buf[i])
  {
    ghost var was := buf[..len];
    kept := 0;
    for i := 0 to len
      invariant kept <= i
      invariant buf[..kept] == Live(was[..i], now)
      invariant forall j :: kept <= j < buf.Length ==> buf[j] == old(buf[j])
      invariant kept == i ==> forall j :: 0 <= j < i ==> buf[j] == old(buf[j])
    {
      assert was[..i + 1][..i] == was[..i];
      var t := buf[i];
      assert t == was[i];
      if now - t < PERIOD {
        ghost var front := buf[..kept];
        buf[kept] := t;
        assert buf[..kept] == front;
        kept := kept + 1;
        assert buf[..kept] == front + [t];
      }
    }
    assert was[..len] == was;
  }

  /** Appending to the first `len` elements, in place where there is room. */
  method Append(buf: array<nat>, len: nat, t: nat) returns (s: Slice)
    requires len <= buf.Length
    modifies buf
    ensures s.len == len + 1 && s.len <= s.buf.Length
    ensures s.buf[..s.len] == old(buf[..len]) + [t]
    ensures s.buf == buf || fresh(s.buf)
  {
    if len < buf.Length {
      ghost var front := buf[..len];
      buf[len] := t;
      s := Slice(buf, len + 1);
      assert buf[..len] == front;
      assert s.buf[..s.len] == buf[..len] + [t];
    } else {
      var bigger := new nat[2 * len + 1];
      for i := 0 to len
        invariant bigger[..i] == buf[..i]
        invariant buf[..] == old(buf[..])
      {
        bigger[i] := buf[i];
      }
      ghost var front := bigger[..len];
      bigger[len] := t;
      s := Slice(bigger, len + 1);
      assert bigger[..len] == front;
      assert s.buf[..s.len] == bigger[..len] + [t];
    }
  }

  predicate Idle(s: Slice, now: nat)
    requires s.len <= s.buf.Length
    reads s.buf
  {
    s.len == 0 || now - s.buf[s.len - 1] > PERIOD
  }

  /** Drops the slices whose last attempt has expired. */
  method Sift(all: map<string, Slice>, now: nat) returns (left: map<string, Slice>)
    requires forall k :: k in all ==> all[k].len <= all[k].buf.Length
    ensures forall k :: k in left <==> k in all && !Idle(all[k], now)
    ensures forall k :: k in left ==> left[k] == all[k]
  {
    left := all;
    var names := all.Keys;
    while names != {}
      invariant forall k :: k in names ==> k in left
      invariant forall k :: k in left ==> k in all && left[k] == all[k]
      invariant forall k :: k in all && k !in left ==> Idle(all[k], now)
      invariant forall k :: k in left && k !in names ==> !Idle(all[k], now)
      decreases |names|
    {
      var name :| name in names;
      names := names - {name};
      if left[name].len == 0 || now - left[name].buf[left[name].len - 1] > PERIOD {
        left := map k | k in left && k != name :: left[k];
      }
    }
  }

  /** No two addresses share a backing array. */
  ghost predicate Separate(all: map<string, Slice>) {
    && (forall k :: k in all ==> all[k].len <= all[k].buf.Length)
    && (forall j, k :: j in all && k in all && j != k ==> all[j].buf != all[k].buf)
  }

  lemma SeparateAfter(all: map<string, Slice>, left: map<string, Slice>, ip: string, next: Slice)
    requires Separate(all) && next.len <= next.buf.Length
    requires forall k :: k in left ==> k in all && left[k] == all[k]
    requires forall k :: k in all && k != ip ==> all[k].buf != next.buf
    ensures Separate(left[ip := next])
  {
  }

  /** The slices of `all` hold what `view` says, except perhaps for one address. */
  ghost predicate Shows(all: map<string, Slice>, view: Attempts, ip: string)
    requires Separate(all)
    reads set k | k in all :: all[k].buf
  {
    forall k :: k in all && k != ip ==> k in view && all[k].buf[..all[k].len] == view[k]
  }

  /** One address's attempts are filtered in place, and then a crowded table is
      sifted: the filter does not disturb what the sifting looks at. */
  method CompactThenSift(s: Slice, all: map<string, Slice>, ip: string, now: nat, ghost view: Attempts)
    returns (kept: nat, left: map<string, Slice>)
    requires Separate(all) && s.len <= s.buf.Length && Shows(all, view, ip)
    requires if ip in all then s == all[ip] else forall k :: k in all ==> all[k].buf != s.buf
    requires s.buf[..s.len] == Past(view, ip) && (ip in all <==> ip in view)
    modifies s.buf
    ensures kept <= s.len && Shows(all, view, ip)
    ensures s.buf[..kept] == Live(Past(view, ip), now)
    ensures forall k :: k in left <==> k in all && (|all| > CROWDED ==> !Stale(view[k], now))
    ensures forall k :: k in left ==> left[k] == all[k]
  {
    kept := Compact(s.buf, s.len, now);
    left := all;
    forall k | k in all ensures Idle(all[k], now) == Stale(view[k], now) {
      if k != ip {
        assert all[k].buf[..all[k].len] == view[k];
      }
    }
    if |all| > CROWDED {
      left := Sift(all, now);
    }
  }

  /** The address's new slice, and the table left beside it. */
  method Try(s: Slice, all: map<string, Slice>, ip: string, now: nat, ghost view: Attempts)
    returns (ok: bool, next: Slice, left: map<string, Slice>)
    requires Separate(all) && s.len <= s.buf.Length && Shows(all, view, ip)
    requires if ip in all then s == all[ip] else forall k :: k in all ==> all[k].buf != s.buf
    requires s.buf[..s.len] == Past(view, ip) && (ip in all <==> ip in view)
    modifies s.buf
    ensures ok == Allowed(view, ip, now) && Shows(all, view, ip)
    ensures next.len <= next.buf.Length && (next.buf == s.buf || fresh(next.buf))
    ensures next.buf[..next.len] == Live(Past(view, ip), now) + (if ok then [now] else [])
    ensures forall k :: k in all && k != ip ==> all[k].buf != next.buf
    ensures forall k :: k in left <==> k in all && (|all| > CROWDED ==> !Stale(view[k], now))
    ensures forall k :: k in left ==> left[k] == all[k]
  {
    var kept;
    kept, left := CompactThenSift(s, all, ip, now, view);
    ok := kept < MAX_TRIES;
    if ok {
      next := Append(s.buf, kept, now);
    } else {
      next := Slice(s.buf, kept);
    }
  }

  ghost function Contents(all: map<string, Slice>): Attempts
    requires Separate(all)
    reads set k | k in all :: all[k].buf
  {
    map k | k in all :: all[k].buf[..all[k].len]
  }

  /** The whole new table. */
  method Settle(s: Slice, all: map<string, Slice>, ip: string, now: nat, ghost view: Attempts)
    returns (ok: bool, next: Slice, table: map<string, Slice>)
    requires Separate(all) && s.len <= s.buf.Length && Contents(all) == view
    requires if ip in all then s == all[ip] else s.len == 0 && forall k :: k in all ==> all[k].buf != s.buf
    modifies s.buf
    ensures ok == Allowed(view, ip, now)
    ensures next.buf == s.buf || fresh(next.buf)
    ensures ip in table && table[ip] == next
    ensures forall k :: k in table && k != ip ==> k in all && table[k] == all[k]
    ensures Separate(table) && Contents(table) == Recorded(view, ip, now)
  {
    SameSize(all, view);
    var left;
    ok, next, left := Try(s, all, ip, now, view);
    SeparateAfter(all, left, ip, next);
    table := left[ip := next];
    ContentsAfter(all, table, view, ip);
    RecordedIs(view, ip, now, Contents(table));
  }

  lemma ContentsAfter(all: map<string, Slice>, table: map<string, Slice>, view: Attempts, ip: string)
    requires Separate(all) && Separate(table) && Shows(all, view, ip)
    requires forall k :: k in table && k != ip ==> k in all && table[k] == all[k]
    ensures forall k :: k in Contents(table) && k != ip ==> k in view && Contents(table)[k] == view[k]
  {
  }

  lemma SameSize(all: map<string, Slice>, view: Attempts)
    requires forall k :: k in all <==> k in view
    ensures |all| == |view|
  {
    assert all.Keys == view.Keys;
    assert |all| == |all.Keys|;
  }

  lemma RecordedIs(a: Attempts, ip: string, now: nat, b: Attempts)
    requires forall k :: k in b <==> k == ip || (k in a && (|a| > CROWDED ==> !Stale(a[k], now)))
    requires forall k :: k in b && k != ip ==> b[k] == a[k]
    requires b[ip] == Live(Past(a, ip), now) + (if Allowed(a, ip, now) then [now] else [])
    ensures b == Recorded(a, ip, now)
  {
    var r := Recorded(a, ip, now);
    assert forall k :: k in b <==> k in r;
    assert forall k :: k in b ==> b[k] == r[k];
  }

  /** The address's slice, or an empty one. */
  method Find(all: map<string, Slice>, ip: string) returns (s: Slice)
    requires Separate(all)
    ensures s.len <= s.buf.Length
    ensures if ip in all then s == all[ip] else s.len == 0 && fresh(s.buf)
  {
    if ip in all {
      s := all[ip];
    } else {
      var none := new nat[0];
      s := Slice(none, 0);
    }
  }

  class Limiter {
    var attempts: map<string, Slice>

    ghost predicate Valid()
      reads this
    {
      Separate(attempts)
    }

    ghost function View(): (v: Attempts)
      requires Valid()
      reads this, set k | k in attempts :: attempts[k].buf
    {
      Contents(attempts)
    }

    constructor ()
      ensures Valid() && View() == map[]
    {
      attempts := map[];
    }

    /** Records an attempt; only the address's own array is written. */
    method Allow(ip: string, now: nat) returns (ok: bool)
      requires Valid()
      modifies this, if ip in attempts then {attempts[ip].buf} else {}
      ensures Valid()
      ensures ok == Allowed(old(View()), ip, now)
      ensures View() == Recorded(old(View()), ip, now)
      ensures forall k :: k in attempts ==>
                (k in old(attempts) && attempts[k].buf == old(attempts)[k].buf) || fresh(attempts[k].buf)
    {
      var s := Find(attempts, ip);
      var next, table;
      ok, next, table := Settle(s, attempts, ip, now, View());
      attempts := table;
    }

    method Reset(ip: string)
      requires Valid()
      modifies this`attempts
      ensures Valid() && View() == map k | k in old(View()) && k != ip :: old(View())[k]
    {
      attempts := map k | k in attempts && k != ip :: attempts[k];
    }
  }

  // ----- Runs -----

  datatype Call = Allow(now: nat, ip: string) | Reset(now: nat, ip: string)

  function Apply(a: Attempts, c: Call): Attempts {
    match c
    case Allow(now, ip) => Recorded(a, ip, now)
    case Reset(_, ip) => map k | k in a && k != ip :: a[k]
  }

  function Run(calls: seq<Call>): Attempts {
    if calls == [] then map[] else Apply(Run(calls[..|calls| - 1]), calls[|calls| - 1])
  }

  function LastTime(calls: seq<Call>): nat {
    if calls == [] then 0 else calls[|calls| - 1].now
  }

  ghost predicate Ordered(calls: seq<Call>) {
    calls == [] ||
    (Ordered(calls[..|calls| - 1]) && LastTime(calls[..|calls| - 1]) <= LastTime(calls))
  }

  function Judge(history: seq<nat>, ip: string, c: Call): seq<nat> {
    if c.ip != ip then history
    else if c.Reset? then []
    else if |Live(history, c.now)| < MAX_TRIES then history + [c.now]
    else history
  }

  /** The rule itself: the times of the tries let through since the address's last
      reset, a try being let through when fewer than ten of the earlier ones lie
      within the period. Nothing is ever dropped or shared. */
  function Admitted(calls: seq<Call>, ip: string): seq<nat> {
    if calls == [] then []
    else Judge(Admitted(calls[..|calls| - 1], ip), ip, calls[|calls| - 1])
  }

  // Facts about filtering

  lemma LiveSnoc(ts: seq<nat>, t: nat, now: nat)
    ensures Live(ts + [t], now) == Live(ts, now) + if now - t < PERIOD then [t] else []
  {
    assert (ts + [t])[..|ts|] == ts;
  }

  lemma {:induction false} LiveAgain(ts: seq<nat>, now: nat, later: nat)
    requires now <= later
    ensures Live(Live(ts, now), later) == Live(ts, later)
  {
    if ts != [] {
      var n := |ts| - 1;
      LiveAgain(ts[..n], now, later);
      if now - ts[n] < PERIOD {
        LiveSnoc(Live(ts[..n], now), ts[n], later);
      } else {
        assert Live(ts, now) == Live(ts[..n], now);
      }
    }
  }

  ghost predicate Ascending(ts: seq<nat>, clock: nat) {
    && (forall i, j :: 0 <= i <= j < |ts| ==> ts[i] <= ts[j])
    && (forall i :: 0 <= i < |ts| ==> ts[i] <= clock)
  }

  lemma {:induction false} LiveAscends(ts: seq<nat>, now: nat, clock: nat)
    requires Ascending(ts, clock)
    ensures Ascending(Live(ts, now), clock)
    ensures forall t :: t in Live(ts, now) ==> t in ts
  {
    if ts != [] {
      var n := |ts| - 1;
      var init := ts[..n];
      assert forall i :: 0 <= i < n ==> init[i] == ts[i];
      LiveAscends(init, now, clock);
      var rest := Live(init, now);
      forall i | 0 <= i < |rest| ensures rest[i] <= ts[n] {
        assert rest[i] in init;
      }
    }
  }

  lemma {:induction false} StaleIsDead(ts: seq<nat>, now: nat, clock: nat)
    requires Ascending(ts, clock) && Stale(ts, now)
    ensures Live(ts, now) == []
  {
    if ts != [] {
      var n := |ts| - 1;
      var init := ts[..n];
      assert forall i :: 0 <= i < n ==> init[i] == ts[i];
      StaleIsDead(init, now, clock);
    }
  }

  // ----- The table follows the rule -----

  /** What the table remembers of the address is worth the same as its history. */
  ghost predicate Follows(a: Attempts, ip: string, history: seq<nat>, clock: nat) {
    && Ascending(Past(a, ip), clock)
    && Live(Past(a, ip), clock) == Live(history, clock)
  }

  lemma LaterAgrees(x: seq<nat>, y: seq<nat>, clock: nat, later: nat)
    requires clock <= later && Live(x, clock) == Live(y, clock)
    ensures Live(x, later) == Live(y, later)
  {
    LiveAgain(x, clock, later);
    LiveAgain(y, clock, later);
  }

  lemma EvictionForgetsOnlyTheDead(a: Attempts, ip: string, history: seq<nat>, clock: nat)
    requires Follows(a, ip, history, clock)
    ensures Follows(Evicted(a, clock), ip, history, clock)
  {
    if ip in a && ip !in Evicted(a, clock) {
      StaleIsDead(a[ip], clock, clock);
    }
  }

  function Next(live: seq<nat>, now: nat): seq<nat> {
    if |live| < MAX_TRIES then live + [now] else live
  }

  lemma NextAscends(live: seq<nat>, now: nat)
    requires Ascending(live, now)
    ensures Ascending(Next(live, now), now)
  {
  }

  lemma TryKeepsLive(past: seq<nat>, history: seq<nat>, ip: string, now: nat)
    requires Live(past, now) == Live(history, now)
    ensures Live(Next(Live(past, now), now), now) == Live(Judge(history, ip, Allow(now, ip)), now)
  {
    var live := Live(past, now);
    LiveAgain(past, now, now);
    if |live| < MAX_TRIES {
      LiveSnoc(live, now, now);
      LiveSnoc(history, now, now);
    }
  }

  lemma OwnTryFollows(a: Attempts, ip: string, history: seq<nat>, clock: nat, now: nat)
    requires Follows(a, ip, history, clock) && clock <= now
    ensures Follows(Recorded(a, ip, now), ip, Judge(history, ip, Allow(now, ip)), now)
  {
    LaterAgrees(Past(a, ip), history, clock, now);
    TryKeepsLive(Past(a, ip), history, ip, now);
    LiveAscends(Past(a, ip), now, now);
    NextAscends(Live(Past(a, ip), now), now);
    assert Past(Recorded(a, ip, now), ip) == Next(Live(Past(a, ip), now), now);
  }

  lemma OtherTryFollows(a: Attempts, ip: string, history: seq<nat>, clock: nat, who: string, now: nat)
    requires Follows(a, ip, history, clock) && clock <= now && who != ip
    ensures Follows(Recorded(a, who, now), ip, history, now)
  {
    LaterAgrees(Past(a, ip), history, clock, now);
    EvictionForgetsOnlyTheDead(a, ip, history, now);
    assert Past(Recorded(a, who, now), ip) == Past(Evicted(a, now), ip);
  }

  lemma FollowsStep(a: Attempts, ip: string, history: seq<nat>, clock: nat, c: Call)
    requires Follows(a, ip, history, clock) && clock <= c.now
    ensures Follows(Apply(a, c), ip, Judge(history, ip, c), c.now)
  {
    match c {
      case Allow(now, who) =>
        if who == ip {
          OwnTryFollows(a, ip, history, clock, now);
        } else {
          OtherTryFollows(a, ip, history, clock, who, now);
        }
      case Reset(now, who) =>
        LaterAgrees(Past(a, ip), history, clock, now);
        if who != ip {
          assert Past(Apply(a, c), ip) == Past(a, ip);
        }
    }
  }

  lemma {:induction false} RunFollows(calls: seq<Call>, ip: string)
    requires Ordered(calls)
    ensures Follows(Run(calls), ip, Admitted(calls, ip), LastTime(calls))
  {
    if calls != [] {
      var n := |calls| - 1;
      RunFollows(calls[..n], ip);
      FollowsStep(Run(calls[..n]), ip, Admitted(calls[..n], ip), LastTime(calls[..n]), calls[n]);
    }
  }

  /** Every answer is the rule's: in-place compaction, eviction and the other
      addresses change none of them. */
  lemma AnswersFollowTheRule(calls: seq<Call>, ip: string, now: nat)
    requires Ordered(calls) && LastTime(calls) <= now
    ensures Allowed(Run(calls), ip, now) <==> |Live(Admitted(calls, ip), now)| < MAX_TRIES
  {
    RunFollows(calls, ip);
    LaterAgrees(Past(Run(calls), ip), Admitted(calls, ip), LastTime(calls), now);
  }

  /** The times of the tries the limiter itself let through since the last reset. */
  function LetThrough(calls: seq<Call>, ip: string): seq<nat> {
    if calls == [] then []
    else
      var n := |calls| - 1;
      var before := LetThrough(calls[..n], ip);
      if calls[n].ip != ip then before
      else if calls[n].Reset? then []
      else if Allowed(Run(calls[..n]), ip, calls[n].now) then before + [calls[n].now]
      else before
  }

  lemma {:induction false} LetThroughIsAdmitted(calls: seq<Call>, ip: string)
    requires Ordered(calls)
    ensures LetThrough(calls, ip) == Admitted(calls, ip)
  {
    if calls != [] {
      var n := |calls| - 1;
      LetThroughIsAdmitted(calls[..n], ip);
      AnswersFollowTheRule(calls[..n], ip, calls[n].now);
    }
  }

  // ----- At most ten in any period -----

  function CountIn(ts: seq<nat>, from: nat): nat {
    if ts == [] then 0
    else
      var n := |ts| - 1;
      CountIn(ts[..n], from) + if from <= ts[n] < from + PERIOD then 1 else 0
  }

  lemma {:induction false} CountedAreLive(ts: seq<nat>, from: nat, now: nat)
    requires now < from + PERIOD
    ensures CountIn(ts, from) <= |Live(ts, now)|
  {
    if ts != [] {
      CountedAreLive(ts[..|ts| - 1], from, now);
    }
  }

  /** Between resets of an address, any fifteen minutes hold at most ten tries that
      were let through. */
  lemma AtMostTenPerPeriod(calls: seq<Call>, ip: string, from: nat)
    requires Ordered(calls)
    ensures CountIn(LetThrough(calls, ip), from) <= MAX_TRIES
  {
    LetThroughIsAdmitted(calls, ip);
    RuleAdmitsAtMostTen(calls, ip, from);
  }

  lemma {:induction false} RuleAdmitsAtMostTen(calls: seq<Call>, ip: string, from: nat)
    ensures CountIn(Admitted(calls, ip), from) <= MAX_TRIES
  {
    if calls != [] {
      var n := |calls| - 1;
      var before, c := Admitted(calls[..n], ip), calls[n];
      RuleAdmitsAtMostTen(calls[..n], ip, from);
      if c.Allow? && c.ip == ip && |Live(before, c.now)| < MAX_TRIES {
        assert (before + [c.now])[..|before|] == before;
        if c.now < from + PERIOD {
          CountedAreLive(before, from, c.now);
        }
      }
    }
  }
}
