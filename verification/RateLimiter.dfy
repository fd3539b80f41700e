/** The per-key request limiter: a fixed one-minute window for each API key, and a
    sweep that forgets keys gone quiet. Times are in nanoseconds. */
module RateLimiter {
  const MINUTE: nat := 60_000_000_000

  datatype ApiKey = ApiKey(id: int)

  datatype Window = Window(start: nat, count: nat)

  type Windows = map<ApiKey, Window>

  function Allowed(ws: Windows, key: ApiKey, limit: int, now: nat): bool {
    limit <= 0 || key !in ws || now - ws[key].start >= MINUTE || ws[key].count < limit
  }

  function Counted(ws: Windows, key: ApiKey, limit: int, now: nat): Windows {
    if limit <= 0 then ws
    else if key !in ws || now - ws[key].start >= MINUTE then ws[key := Window(now, 1)]
    else if ws[key].count >= limit then ws
    else ws[key := ws[key].(count := ws[key].count + 1)]
  }

  function Swept(ws: Windows, now: nat): Windows {
    map k | k in ws && now - ws[k].start <= 5 * MINUTE :: ws[k]
  }

  class Limiter {
    var windows: Windows

    constructor ()
      ensures windows == map[]
    {
      windows := map[];
    }

    method Allow(key: ApiKey, limit: int, now: nat) returns (ok: bool)
      modifies this
      ensures ok == Allowed(old(windows), key, limit, now)
      ensures windows == Counted(old(windows), key, limit, now)
    {
      if limit <= 0 {
        return true;
      }
      if key !in windows || now - windows[key].start >= MINUTE {
        windows := windows[key := Window(now, 1)];
        return true;
      }
      var w := windows[key];
      if w.count >= limit {
        return false;
      }
      windows := windows[key := Window(w.start, w.count + 1)];
      return true;
    }

    method Sweep(now: nat)
      modifies this
      ensures windows == Swept(old(windows), now)
    {
      ghost var was := windows;
      var ids := windows.Keys;
      while ids != {}
        invariant forall k :: k in ids ==> k in windows
        invariant forall k :: k in windows ==> k in was && windows[k] == was[k]
        invariant forall k :: k in was && k !in windows ==> now - was[k].start > 5 * MINUTE
        invariant forall k :: k in windows && k !in ids ==> now - was[k].start <= 5 * MINUTE
        decreases |ids|
      {
        var id :| id in ids;
        ids := ids - {id};
        if now - windows[id].start > 5 * MINUTE {
          windows := map k | k in windows && k != id :: windows[k];
        }
      }
      assert windows == Swept(was, now);
    }
  }

  // ----- Runs -----

  datatype Call = Allow(now: nat, key: ApiKey, limit: int) | Sweep(now: nat)

  function Apply(ws: Windows, c: Call): Windows {
    match c
    case Allow(now, key, limit) => Counted(ws, key, limit, now)
    case Sweep(now) => Swept(ws, now)
  }

  function Run(calls: seq<Call>): Windows {
    if calls == [] then map[] else Apply(Run(calls[..|calls| - 1]), calls[|calls| - 1])
  }

  /** The answer to a call made after `calls`. */
  predicate Answer(calls: seq<Call>, c: Call)
    requires c.Allow?
  {
    Allowed(Run(calls), c.key, c.limit, c.now)
  }

  ghost predicate Ordered(calls: seq<Call>) {
    forall i, j :: 0 <= i <= j < |calls| ==> calls[i].now <= calls[j].now
  }

  function LastTime(calls: seq<Call>): nat {
    if calls == [] then 0 else calls[|calls| - 1].now
  }

  /** How many requests of the key were let through during the minute from `from`. */
  function Granted(calls: seq<Call>, key: ApiKey, from: nat): nat {
    if calls == [] then 0
    else
      var n := |calls| - 1;
      var c := calls[n];
      Granted(calls[..n], key, from)
      + if c.Allow? && c.key == key && from <= c.now < from + MINUTE && Answer(calls[..n], c) then 1 else 0
  }

  /** Every limit the key is called with is positive and at most `limit`. */
  ghost predicate LimitAtMost(calls: seq<Call>, key: ApiKey, limit: int) {
    forall i :: 0 <= i < |calls| && calls[i].Allow? && calls[i].key == key ==> 0 < calls[i].limit <= limit
  }

  // ----- At most twice the limit, less one -----

  /** What the key's window says about the requests granted since `from`. */
  ghost predicate Bounded(ws: Windows, key: ApiKey, limit: nat, clock: nat, from: nat, granted: nat) {
    && granted <= 2 * limit - 1
    && (clock < from ==> granted == 0)
    && (key in ws ==>
          var w := ws[key];
          && w.start <= clock && 1 <= w.count <= limit
          && (w.start < from ==> granted <= w.count - 1)
          && (from <= w.start < from + MINUTE ==> granted <= limit - 1 + w.count))
    && (key !in ws && clock < from + MINUTE ==> granted <= limit - 1)
  }

  lemma BoundedStep(ws: Windows, key: ApiKey, limit: nat, clock: nat, from: nat, granted: nat, c: Call)
    requires limit > 0 && clock <= c.now
    requires c.Allow? && c.key == key ==> 0 < c.limit <= limit
    requires Bounded(ws, key, limit, clock, from, granted)
    ensures Bounded(Apply(ws, c), key, limit, c.now, from,
                    granted + if c.Allow? && c.key == key && from <= c.now < from + MINUTE
                                 && Allowed(ws, c.key, c.limit, c.now) then 1 else 0)
  {
  }

  lemma {:induction false} RunIsBounded(calls: seq<Call>, key: ApiKey, limit: nat, from: nat)
    requires limit > 0 && Ordered(calls) && LimitAtMost(calls, key, limit)
    ensures Bounded(Run(calls), key, limit, LastTime(calls), from,
                    Granted(calls, key, from))
  {
    if calls != [] {
      var n := |calls| - 1;
      var init := calls[..n];
      PrefixOrdered(calls);
      assert forall i :: 0 <= i < n ==> init[i] == calls[i];
      RunIsBounded(init, key, limit, from);
      BoundedStep(Run(init), key, limit, LastTime(init), from, Granted(init, key, from), calls[n]);
    }
  }

  /** In any minute, a key is let through fewer than twice as many requests as the largest
      limit it is called with. */
  lemma BurstBound(calls: seq<Call>, key: ApiKey, limit: nat, from: nat)
    requires limit > 0 && Ordered(calls) && LimitAtMost(calls, key, limit)
    ensures Granted(calls, key, from) <= 2 * limit - 1
  {
    RunIsBounded(calls, key, limit, from);
  }

  // ----- A request is refused only when the limit is used up -----

  /** The window's count is no more than what was granted since its start. */
  ghost predicate Backed(ws: Windows, calls: seq<Call>, key: ApiKey) {
    key in ws ==> ws[key].start <= LastTime(calls) && ws[key].count <= Granted(calls, key, ws[key].start)
  }

  lemma {:induction false} RunIsBacked(calls: seq<Call>, key: ApiKey)
    requires Ordered(calls)
    ensures Backed(Run(calls), calls, key)
    decreases |calls|
  {
    if calls != [] {
      var n := |calls| - 1;
      PrefixOrdered(calls);
      RunIsBacked(calls[..n], key);
      BackedStep(Run(calls[..n]), calls, key);
    }
  }

  lemma BackedStep(ws: Windows, calls: seq<Call>, key: ApiKey)
    requires calls != [] && ws == Run(calls[..|calls| - 1]) && Backed(ws, calls[..|calls| - 1], key)
    requires LastTime(calls[..|calls| - 1]) <= LastTime(calls)
    ensures Backed(Apply(ws, calls[|calls| - 1]), calls, key)
  {
    var c := calls[|calls| - 1];
    if c.Allow? && c.key == key && c.limit > 0 && Allowed(ws, key, c.limit, c.now) {
      var ws' := Apply(ws, c);
      assert ws'[key].start <= c.now < ws'[key].start + MINUTE;
    }
  }

  /** A request is refused only when its limit is positive and that many were let through within a
      minute that ends now; so a key below its limit is never refused, and a limit that is not positive
      lets everything through. */
  lemma RefusedOnlyWhenFull(calls: seq<Call>, c: Call)
    requires c.Allow? && Ordered(calls + [c]) && !Answer(calls, c)
    ensures c.limit > 0
    ensures exists from: nat :: from <= c.now < from + MINUTE && Granted(calls, c.key, from) >= c.limit
  {
    assert (calls + [c])[..|calls|] == calls;
    PrefixOrdered(calls + [c]);
    RunIsBacked(calls, c.key);
    var from := Run(calls)[c.key].start;
    assert from <= c.now < from + MINUTE && Granted(calls, c.key, from) >= c.limit;
  }

  // ----- The bound is reached -----

  function Repeat(c: Call, n: nat): seq<Call> { seq(n, i => c) }

  /** Requests at one moment within an open window are all let through while the
      limit lasts. */
  lemma GrantedSnoc(calls: seq<Call>, c: Call, from: nat)
    requires c.Allow?
    ensures Granted(calls + [c], c.key, from)
         == Granted(calls, c.key, from) + if from <= c.now < from + MINUTE && Answer(calls, c) then 1 else 0
  {
    assert (calls + [c])[..|calls|] == calls;
  }

  lemma {:induction false} RepeatGrants(calls: seq<Call>, c: Call, n: nat, from: nat, w: Window)
    requires c.Allow? && c.key in Run(calls) && Run(calls)[c.key] == w
    requires w.start <= c.now < w.start + MINUTE && w.count + n <= c.limit
    requires from <= c.now < from + MINUTE
    ensures c.key in Run(calls + Repeat(c, n))
    ensures Run(calls + Repeat(c, n))[c.key] == Window(w.start, w.count + n)
    ensures Granted(calls + Repeat(c, n), c.key, from) == Granted(calls, c.key, from) + n
  {
    if n == 0 {
      assert calls + Repeat(c, 0) == calls;
    } else {
      var before := calls + Repeat(c, n - 1);
      RepeatGrants(calls, c, n - 1, from, w);
      assert calls + Repeat(c, n) == before + [c];
      RunSnoc(before, c);
      GrantedSnoc(before, c, from);
    }
  }

  /** One request opens a window, the rest of the limit comes at its very end, and a
      full limit at the start of the next. */
  function Early(key: ApiKey, limit: nat): seq<Call>
    requires limit > 0
  {
    [Allow(0, key, limit)] + Repeat(Allow(MINUTE - 1, key, limit), limit - 1)
  }

  function Burst(key: ApiKey, limit: nat): seq<Call>
    requires limit > 0
  {
    Early(key, limit) + [Allow(MINUTE, key, limit)] + Repeat(Allow(MINUTE, key, limit), limit - 1)
  }

  lemma EarlyGrants(key: ApiKey, limit: nat)
    requires limit > 0
    ensures key in Run(Early(key, limit)) && Run(Early(key, limit))[key] == Window(0, limit)
    ensures Granted(Early(key, limit), key, MINUTE - 1) == limit - 1
  {
    var first := Allow(0, key, limit);
    RunSnoc([], first);
    GrantedSnoc([], first, MINUTE - 1);
    assert [] + [first] == [first];
    RepeatGrants([first], Allow(MINUTE - 1, key, limit), limit - 1, MINUTE - 1, Window(0, 1));
  }

  lemma BurstIsOrdered(key: ApiKey, limit: nat)
    requires limit > 0
    ensures Ordered(Burst(key, limit)) && LimitAtMost(Burst(key, limit), key, limit)
  {
    var b := Burst(key, limit);
    assert |b| == 2 * limit;
    forall i | 0 <= i < |b|
      ensures b[i] == Allow(if i == 0 then 0 else if i < limit then MINUTE - 1 else MINUTE, key, limit)
    {
    }
  }

  lemma BurstGrants(key: ApiKey, limit: nat)
    requires limit > 0
    ensures Granted(Burst(key, limit), key, MINUTE - 1) == 2 * limit - 1
  {
    var early, next := Early(key, limit), Allow(MINUTE, key, limit);
    EarlyGrants(key, limit);
    RunSnoc(early, next);
    GrantedSnoc(early, next, MINUTE - 1);
    assert Burst(key, limit) == (early + [next]) + Repeat(next, limit - 1);
    RepeatGrants(early + [next], next, limit - 1, MINUTE - 1, Window(MINUTE, 1));
  }

  /** The bound is exact: for every limit some orderly run reaches it. */
  lemma BurstReachesBound(key: ApiKey, limit: nat)
    requires limit > 0
    ensures exists calls, from: nat ::
              Ordered(calls) && LimitAtMost(calls, key, limit) && Granted(calls, key, from) == 2 * limit - 1
  {
    BurstIsOrdered(key, limit);
    BurstGrants(key, limit);
  }

  // ----- Other keys and sweeps change no answer -----

  /** The calls that concern one key. */
  function Own(calls: seq<Call>, key: ApiKey): seq<Call> {
    if calls == [] then []
    else
      var n := |calls| - 1;
      Own(calls[..n], key) + if calls[n].Allow? && calls[n].key == key then [calls[n]] else []
  }

  /** Two tables a key cannot tell apart from `clock` on. */
  ghost predicate Alike(ws: Windows, own: Windows, key: ApiKey, clock: nat) {
    if key in ws then key in own && own[key] == ws[key]
    else key in own ==> clock - own[key].start >= MINUTE
  }

  lemma AlikeStep(ws: Windows, own: Windows, key: ApiKey, clock: nat, c: Call)
    requires Alike(ws, own, key, clock) && clock <= c.now
    ensures c.Allow? && c.key == key ==> Alike(Apply(ws, c), Apply(own, c), key, c.now)
    ensures !(c.Allow? && c.key == key) ==> Alike(Apply(ws, c), own, key, c.now)
  {
  }

  lemma {:induction false} OwnCallsDecide(calls: seq<Call>, key: ApiKey)
    requires Ordered(calls)
    ensures Alike(Run(calls), Run(Own(calls, key)), key, LastTime(calls))
  {
    if calls != [] {
      var n := |calls| - 1;
      var init, c := calls[..n], calls[n];
      PrefixOrdered(calls);
      OwnCallsDecide(init, key);
      AlikeStep(Run(init), Run(Own(init, key)), key, LastTime(init), c);
      if c.Allow? && c.key == key {
        RunSnoc(Own(init, key), c);
      } else {
        assert Own(calls, key) == Own(init, key);
      }
    }
  }

  lemma RunSnoc(calls: seq<Call>, c: Call)
    ensures Run(calls + [c]) == Apply(Run(calls), c)
  {
    assert (calls + [c])[..|calls|] == calls;
  }

  lemma PrefixOrdered(calls: seq<Call>)
    requires calls != [] && Ordered(calls)
    ensures Ordered(calls[..|calls| - 1])
    ensures LastTime(calls[..|calls| - 1]) <= LastTime(calls)
  {
    var init := calls[..|calls| - 1];
    assert forall i :: 0 <= i < |init| ==> init[i] == calls[i];
  }

  /** Every answer is the one the key would get were it alone and never swept. */
  lemma AnswersAreIndependent(calls: seq<Call>, c: Call)
    requires c.Allow? && Ordered(calls + [c])
    ensures Answer(calls, c) == Answer(Own(calls, c.key), c)
  {
    assert (calls + [c])[..|calls|] == calls;
    PrefixOrdered(calls + [c]);
    OwnCallsDecide(calls, c.key);
  }

  lemma {:induction false} OwnOfConcat(a: seq<Call>, b: seq<Call>, key: ApiKey)
    ensures Own(a + b, key) == Own(a, key) + Own(b, key)
  {
    if b == [] {
      assert a + b == a;
    } else {
      var n := |b| - 1;
      OwnOfConcat(a, b[..n], key);
      assert (a + b)[..|a| + n] == a + b[..n];
    }
  }

  /** Inserting a sweep anywhere changes no answer. */
  lemma SweepChangesNoAnswer(before: seq<Call>, now: nat, after: seq<Call>, c: Call)
    requires c.Allow? && Ordered(before + [Sweep(now)] + after + [c])
    ensures Answer(before + [Sweep(now)] + after, c) == Answer(before + after, c)
  {
    var with, without := before + [Sweep(now)] + after, before + after;
    SkipKeepsOrder(before, Sweep(now), after, c);
    AnswersAreIndependent(with, c);
    AnswersAreIndependent(without, c);
    OwnOfConcat(before + [Sweep(now)], after, c.key);
    OwnOfConcat(before, [Sweep(now)], c.key);
    OwnOfConcat(before, after, c.key);
    assert Own([Sweep(now)], c.key) == [] by {
      assert [Sweep(now)][..0] == [];
    }
    assert Own(with, c.key) == Own(without, c.key);
  }

  lemma SkipKeepsOrder(before: seq<Call>, x: Call, after: seq<Call>, c: Call)
    requires Ordered(before + [x] + after + [c])
    ensures Ordered(before + after + [c])
  {
    var with, without := before + [x] + after + [c], before + after + [c];
    forall i, j | 0 <= i <= j < |without| ensures without[i].now <= without[j].now {
      var p := if i < |before| then i else i + 1;
      var q := if j < |before| then j else j + 1;
      assert without[i] == with[p] && without[j] == with[q];
    }
  }
}
