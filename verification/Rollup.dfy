/** Request statistics: the raw request log, and the hourly and daily tables that
    must go on agreeing with it after the log is purged. */
module Rollup {
  import opened Arithmetic
  import opened Options

  const HOUR: nat := 3600
  const DAY: nat := 86400

  /** One logged request; `ts` is in milliseconds, `failed` is a non-empty error text. */
  datatype Row = Row(ts: nat, model: string, status: int, failed: bool,
                     prompt: nat, completion: nat, cached: nat)

  /** A bucket's start in seconds, and the model. */
  datatype Key = Key(bucket: nat, model: string)

  datatype Agg = Agg(requests: nat, errors: nat, rateLimited: nat, userErrors: nat,
                     prompt: nat, completion: nat, cached: nat)

  const ZERO: Agg := Agg(0, 0, 0, 0, 0, 0, 0)

  type Stats = map<Key, Agg>

  predicate IsRateLimited(r: Row) { r.status == 429 }

  predicate IsUserError(r: Row) { r.status in {400, 403, 413} }

  predicate IsError(r: Row) {
    r.status >= 500 || r.status in {401, 402, 404} || (r.failed && r.status < 400)
  }

  function Bit(b: bool): nat { if b then 1 else 0 }

  function One(r: Row): Agg {
    Agg(1, Bit(IsError(r)), Bit(IsRateLimited(r)), Bit(IsUserError(r)), r.prompt, r.completion, r.cached)
  }

  function Add(a: Agg, b: Agg): Agg {
    Agg(a.requests + b.requests, a.errors + b.errors, a.rateLimited + b.rateLimited,
        a.userErrors + b.userErrors, a.prompt + b.prompt, a.completion + b.completion, a.cached + b.cached)
  }

  function BucketOf(ts: nat, size: nat): nat
    requires size > 0
  {
    ts / 1000 / size * size
  }

  function KeyOf(r: Row, size: nat): Key
    requires size > 0
  {
    Key(BucketOf(r.ts, size), r.model)
  }

  /** The aggregate of the rows of one bucket and model from `since` on. */
  function Total(rows: seq<Row>, size: nat, k: Key, since: nat): Agg
    requires size > 0
  {
    if rows == [] then ZERO
    else
      var n := |rows| - 1;
      var rest := Total(rows[..n], size, k, since);
      if rows[n].ts >= since && KeyOf(rows[n], size) == k then Add(rest, One(rows[n])) else rest
  }

  function Entry(stats: Stats, k: Key): Agg {
    if k in stats then stats[k] else ZERO
  }

  /** The grouping query. */
  function Group(rows: seq<Row>, size: nat, since: nat): Stats
    requires size > 0
  {
    if rows == [] then map[]
    else
      var n := |rows| - 1;
      var rest := Group(rows[..n], size, since);
      var k := KeyOf(rows[n], size);
      if rows[n].ts >= since then rest[k := Add(Entry(rest, k), One(rows[n]))] else rest
  }

  /** Buckets with rows are replaced wholesale, the others stay. */
  function Rolled(stats: Stats, rows: seq<Row>, size: nat, since: nat): Stats
    requires size > 0
  {
    stats + Group(rows, size, since)
  }

  function Keep(rows: seq<Row>, before: nat): seq<Row> {
    if rows == [] then []
    else
      var n := |rows| - 1;
      Keep(rows[..n], before) + if rows[n].ts < before then [] else [rows[n]]
  }

  // ----- The store -----

  class Store {
    var rows: seq<Row>
    var hourly: Stats
    var daily: Stats

    constructor ()
      ensures rows == [] && hourly == map[] && daily == map[]
    {
      rows, hourly, daily := [], map[], map[];
    }

    method Log(r: Row)
      modifies this`rows
      ensures rows == old(rows) + [r]
    {
      rows := rows + [r];
    }

    /** Both tables are recomputed from the raw log. */
    method Rollup(since: nat)
      modifies this`hourly, this`daily
      ensures hourly == Rolled(old(hourly), rows, HOUR, since)
      ensures daily == Rolled(old(daily), rows, DAY, since)
      ensures forall k: Key | Aligned(k.bucket * 1000, HOUR) && SumIn(rows, HOUR, k, since, Requests) > 0 ::
                Sums(Entry(hourly, k), rows, HOUR, k, since)
      ensures forall k: Key | Aligned(k.bucket * 1000, DAY) && SumIn(rows, DAY, k, since, Requests) > 0 ::
                Sums(Entry(daily, k), rows, DAY, k, since)
    {
      hourly := RollupInto(hourly, rows, HOUR, since);
      daily := RollupInto(daily, rows, DAY, since);
    }

    /** Raw rows go, the tables stay; the number of dropped rows is reported. */
    method Purge(before: nat) returns (dropped: nat)
      modifies this`rows
      ensures rows == Keep(old(rows), before)
      ensures dropped + |rows| == |old(rows)|
    {
      var kept := [];
      for i := 0 to |rows|
        invariant kept == Keep(rows[..i], before)
        invariant |kept| <= i
      {
        assert rows[..i + 1][..i] == rows[..i];
        if rows[i].ts >= before {
          kept := kept + [rows[i]];
        }
      }
      assert rows[..|rows|] == rows;
      dropped := |rows| - |kept|;
      rows := kept;
    }
  }

  /** The table after the insert-or-replace: an entry whose bucket has rows from
      `since` on becomes their aggregate, every other entry is what it was. */
  method RollupInto(stats: Stats, rows: seq<Row>, size: nat, since: nat) returns (r: Stats)
    requires size > 0
    ensures r == Rolled(stats, rows, size, since)
    ensures forall k :: Entry(r, k) ==
                        if Total(rows, size, k, since).requests > 0 then Total(rows, size, k, since)
                        else Entry(stats, k)
    ensures forall k: Key | Aligned(k.bucket * 1000, size) ::
              if SumIn(rows, size, k, since, Requests) > 0 then Sums(Entry(r, k), rows, size, k, since)
              else Entry(r, k) == Entry(stats, k)
  {
    var agg: Stats := map[];
    for i := 0 to |rows|
      invariant agg == Group(rows[..i], size, since)
    {
      assert rows[..i + 1][..i] == rows[..i];
      if rows[i].ts >= since {
        var k := KeyOf(rows[i], size);
        var sofar := if k in agg then agg[k] else ZERO;
        agg := agg[k := Add(sofar, One(rows[i]))];
      }
    }
    assert rows[..|rows|] == rows;
    r := stats + agg;
    forall k
      ensures Entry(r, k) == if Total(rows, size, k, since).requests > 0 then Total(rows, size, k, since)
                             else Entry(stats, k)
    {
      RolledEntry(stats, rows, size, since, k);
    }
    forall k: Key | Aligned(k.bucket * 1000, size)
      ensures if SumIn(rows, size, k, since, Requests) > 0 then Sums(Entry(r, k), rows, size, k, since)
              else Entry(r, k) == Entry(stats, k)
    {
      RolledSums(stats, rows, size, since, k);
    }
  }

  // ----- One rollup -----

  lemma {:induction false} GroupIsTotal(rows: seq<Row>, size: nat, since: nat, k: Key)
    requires size > 0
    ensures k in Group(rows, size, since) <==> Total(rows, size, k, since).requests > 0
    ensures Entry(Group(rows, size, since), k) == Total(rows, size, k, since)
  {
    if rows != [] {
      var n := |rows| - 1;
      GroupIsTotal(rows[..n], size, since, k);
    }
  }

  /** The value of every entry after a rollup, whatever `since` is: a bucket that
      `since` cuts in two is left with its rows from `since` on only. */
  lemma RolledEntry(stats: Stats, rows: seq<Row>, size: nat, since: nat, k: Key)
    requires size > 0
    ensures Entry(Rolled(stats, rows, size, since), k) ==
            if Total(rows, size, k, since).requests > 0 then Total(rows, size, k, since)
            else Entry(stats, k)
  {
    GroupIsTotal(rows, size, since, k);
  }

  /** A rollup from `s` makes any earlier rollup from a later time irrelevant. */
  lemma RollupAbsorbs(stats: Stats, rows: seq<Row>, size: nat, s: nat, later: nat)
    requires size > 0 && s <= later
    ensures Rolled(Rolled(stats, rows, size, later), rows, size, s) == Rolled(stats, rows, size, s)
  {
    var x, y := Rolled(Rolled(stats, rows, size, later), rows, size, s), Rolled(stats, rows, size, s);
    forall k ensures k in x <==> k in y
             ensures k in x ==> x[k] == y[k] {
      GroupIsTotal(rows, size, later, k);
      GroupIsTotal(rows, size, s, k);
      LaterIsLess(rows, size, k, s, later);
    }
    assert x == y;
  }

  lemma {:induction false} LaterIsLess(rows: seq<Row>, size: nat, k: Key, s: nat, later: nat)
    requires size > 0 && s <= later
    ensures Total(rows, size, k, later).requests <= Total(rows, size, k, s).requests
  {
    if rows != [] {
      LaterIsLess(rows[..|rows| - 1], size, k, s, later);
    }
  }

  lemma {:induction false} SameCountSameTotal(rows: seq<Row>, size: nat, k: Key, s: nat, later: nat)
    requires size > 0 && s <= later
    requires Total(rows, size, k, later).requests == Total(rows, size, k, s).requests
    ensures Total(rows, size, k, later) == Total(rows, size, k, s)
  {
    if rows != [] {
      LaterIsLess(rows[..|rows| - 1], size, k, s, later);
      SameCountSameTotal(rows[..|rows| - 1], size, k, s, later);
    }
  }

  /** No request is counted in two failure classes. */
  lemma {:induction false} ClassesAreDisjoint(rows: seq<Row>, size: nat, k: Key, since: nat)
    requires size > 0
    ensures var t := Total(rows, size, k, since);
            t.errors + t.rateLimited + t.userErrors <= t.requests
  {
    if rows != [] {
      ClassesAreDisjoint(rows[..|rows| - 1], size, k, since);
    }
  }

  /** The bucket has rows on both sides of `since`. */
  predicate Straddled(rows: seq<Row>, size: nat, k: Key, since: nat)
    requires size > 0
  {
    0 < Total(rows, size, k, since).requests < Total(rows, size, k, 0).requests
  }

  /** A rollup keeps a correct entry correct exactly when `since` does not fall
      between two of the bucket's rows. */
  lemma RollupKeepsEntryIff(stats: Stats, rows: seq<Row>, size: nat, since: nat, k: Key)
    requires size > 0
    requires Entry(stats, k) == Total(rows, size, k, 0)
    ensures Entry(Rolled(stats, rows, size, since), k) == Total(rows, size, k, 0)
       <==> !Straddled(rows, size, k, since)
  {
    RolledEntry(stats, rows, size, since, k);
    LaterIsLess(rows, size, k, 0, since);
    if Total(rows, size, k, since).requests == Total(rows, size, k, 0).requests {
      SameCountSameTotal(rows, size, k, 0, since);
    }
  }

  // ----- Whole runs -----

  datatype Op = Log(row: Row) | Rollup(since: nat) | Purge(before: nat)

  datatype State = State(rows: seq<Row>, stats: Stats)

  function Apply(s: State, op: Op, size: nat): State
    requires size > 0
  {
    match op
    case Log(r) => s.(rows := s.rows + [r])
    case Rollup(since) => s.(stats := Rolled(s.stats, s.rows, size, since))
    case Purge(before) => s.(rows := Keep(s.rows, before))
  }

  /** One table of the store after a run of operations. */
  function Run(s: State, ops: seq<Op>, size: nat): State
    requires size > 0
  {
    if ops == [] then s else Apply(Run(s, ops[..|ops| - 1], size), ops[|ops| - 1], size)
  }

  /** Every row the run logged. */
  function Logged(ops: seq<Op>): seq<Row> {
    if ops == [] then []
    else
      var n := |ops| - 1;
      Logged(ops[..n]) + if ops[n].Log? then [ops[n].row] else []
  }

  /** The latest purge time. */
  function Cutoff(ops: seq<Op>): nat {
    if ops == [] then 0
    else
      var n := |ops| - 1;
      var c := Cutoff(ops[..n]);
      if ops[n].Purge? && ops[n].before > c then ops[n].before else c
  }

  /** The key has a row logged that no rollup has covered since. */
  predicate Pending(ops: seq<Op>, size: nat, k: Key)
    requires size > 0
  {
    ops != [] &&
    var n := |ops| - 1;
    match ops[n]
    case Log(r) => KeyOf(r, size) == k || Pending(ops[..n], size, k)
    case Rollup(since) => k.bucket * 1000 < since && Pending(ops[..n], size, k)
    case Purge(_) => Pending(ops[..n], size, k)
  }

  predicate Aligned(t: nat, size: nat)
    requires size > 0
  {
    t % (1000 * size) == 0
  }

  /** Times fall on bucket boundaries, no row is logged below an earlier purge, and
      a purge only drops rows a rollup has covered. */
  ghost predicate Legal(ops: seq<Op>, size: nat)
    requires size > 0
  {
    ops == [] ||
    var n := |ops| - 1;
    Legal(ops[..n], size) &&
    match ops[n]
    case Log(r) => r.ts >= Cutoff(ops[..n])
    case Rollup(since) => Aligned(since, size)
    case Purge(before) =>
      Aligned(before, size)
      && forall k: Key :: k.bucket * 1000 < before ==> !Pending(ops[..n], size, k)
  }

  // Bucket arithmetic

  lemma BucketBounds(ts: nat, size: nat)
    requires size > 0
    ensures BucketOf(ts, size) * 1000 <= ts < BucketOf(ts, size) * 1000 + 1000 * size
    ensures Aligned(BucketOf(ts, size) * 1000, size)
  {
    var sec := ts / 1000;
    var q := sec / size;
    assert sec == q * size + sec % size;
    assert q * size * 1000 == q * (1000 * size);
    MultipleIsAligned(q, 1000 * size);
  }

  /** An aligned time never splits a bucket. */
  lemma AlignedSplitsNoBucket(ts: nat, t: nat, size: nat)
    requires size > 0 && Aligned(t, size)
    ensures ts >= t <==> BucketOf(ts, size) * 1000 >= t
  {
    BucketBounds(ts, size);
    var b := BucketOf(ts, size) * 1000;
    if b < t {
      AlignedGap(b, t, 1000 * size);
    }
  }

  // What the columns add up

  /** The row is one of the model's, from `since` on, within the bucket's time. */
  predicate In(r: Row, size: nat, k: Key, since: nat) {
    r.ts >= since && r.model == k.model && k.bucket * 1000 <= r.ts < k.bucket * 1000 + 1000 * size
  }

  /** The sum of `f` over those rows. */
  function SumIn(rows: seq<Row>, size: nat, k: Key, since: nat, f: Row -> nat): nat {
    if rows == [] then 0
    else
      var n := |rows| - 1;
      SumIn(rows[..n], size, k, since, f) + if In(rows[n], size, k, since) then f(rows[n]) else 0
  }

  function PromptTokens(r: Row): nat { r.prompt }

  function CompletionTokens(r: Row): nat { r.completion }

  function CachedTokens(r: Row): nat { r.cached }

  function Requests(r: Row): nat { 1 }

  function Errors(r: Row): nat {
    if r.status >= 500 || r.status == 401 || r.status == 402 || r.status == 404 || (r.failed && r.status < 400) then 1 else 0
  }

  function RateLimits(r: Row): nat { if r.status == 429 then 1 else 0 }

  function UserErrors(r: Row): nat { if r.status == 400 || r.status == 403 || r.status == 413 then 1 else 0 }

  /** Every column of the aggregate is the sum or the number it should be. */
  ghost predicate Sums(a: Agg, rows: seq<Row>, size: nat, k: Key, since: nat) {
    && a.requests == SumIn(rows, size, k, since, Requests)
    && a.errors == SumIn(rows, size, k, since, Errors)
    && a.rateLimited == SumIn(rows, size, k, since, RateLimits)
    && a.userErrors == SumIn(rows, size, k, since, UserErrors)
    && a.prompt == SumIn(rows, size, k, since, PromptTokens)
    && a.completion == SumIn(rows, size, k, since, CompletionTokens)
    && a.cached == SumIn(rows, size, k, since, CachedTokens)
  }

  /** A bucket is the time from its start for its size. */
  lemma InIff(r: Row, size: nat, k: Key, since: nat)
    requires size > 0 && Aligned(k.bucket * 1000, size)
    ensures In(r, size, k, since) <==> r.ts >= since && KeyOf(r, size) == k
  {
    BucketBounds(r.ts, size);
    var b, c := BucketOf(r.ts, size) * 1000, k.bucket * 1000;
    if b < c {
      AlignedGap(b, c, 1000 * size);
    } else if c < b {
      AlignedGap(c, b, 1000 * size);
    }
  }

  /** The aggregate of a bucket: the requests of the model in its time, the failures of each class, and
      the tokens of each kind. */
  lemma {:induction false} TotalSums(rows: seq<Row>, size: nat, k: Key, since: nat)
    requires size > 0 && Aligned(k.bucket * 1000, size)
    ensures Sums(Total(rows, size, k, since), rows, size, k, since)
  {
    if rows != [] {
      var n := |rows| - 1;
      TotalSums(rows[..n], size, k, since);
      InIff(rows[n], size, k, since);
    }
  }

  /** Every entry after a rollup: the sums over the bucket's rows from `since` on when there are any, and
      otherwise what it was. */
  lemma RolledSums(stats: Stats, rows: seq<Row>, size: nat, since: nat, k: Key)
    requires size > 0 && Aligned(k.bucket * 1000, size)
    ensures if SumIn(rows, size, k, since, Requests) > 0
            then Sums(Entry(Rolled(stats, rows, size, since), k), rows, size, k, since)
            else Entry(Rolled(stats, rows, size, since), k) == Entry(stats, k)
  {
    TotalSums(rows, size, k, since);
    RolledEntry(stats, rows, size, since, k);
  }

  // Totals of logs

  lemma TotalOfSnoc(rows: seq<Row>, r: Row, size: nat, k: Key, since: nat)
    requires size > 0
    ensures Total(rows + [r], size, k, since) ==
            if r.ts >= since && KeyOf(r, size) == k then Add(Total(rows, size, k, since), One(r))
            else Total(rows, size, k, since)
  {
    assert (rows + [r])[..|rows|] == rows;
  }

  lemma {:induction false} TotalOfKept(rows: seq<Row>, size: nat, k: Key, since: nat, c: nat)
    requires size > 0
    ensures Total(Keep(rows, c), size, k, since) == Total(rows, size, k, if c > since then c else since)
  {
    if rows != [] {
      var n := |rows| - 1;
      TotalOfKept(rows[..n], size, k, since, c);
      if rows[n].ts >= c {
        TotalOfSnoc(Keep(rows[..n], c), rows[n], size, k, since);
      } else {
        assert Keep(rows, c) == Keep(rows[..n], c);
      }
    }
  }

  /** From an aligned time on, a bucket has all its rows or none. */
  lemma {:induction false} TotalFromAligned(rows: seq<Row>, size: nat, k: Key, t: nat)
    requires size > 0 && Aligned(t, size)
    ensures Total(rows, size, k, t) == if k.bucket * 1000 >= t then Total(rows, size, k, 0) else ZERO
  {
    if rows != [] {
      var n := |rows| - 1;
      TotalFromAligned(rows[..n], size, k, t);
      AlignedSplitsNoBucket(rows[n].ts, t, size);
    }
  }

  /** The raw log holds everything from the cutoff's bucket on and nothing below;
      an entry with no uncovered row is the aggregate of everything ever logged. */
  ghost predicate InStep(s: State, ops: seq<Op>, size: nat, k: Key)
    requires size > 0
  {
    var all := Total(Logged(ops), size, k, 0);
    && Aligned(Cutoff(ops), size)
    && Total(s.rows, size, k, 0) == (if k.bucket * 1000 >= Cutoff(ops) then all else ZERO)
    && (k.bucket * 1000 < Cutoff(ops) ==> !Pending(ops, size, k))
    && (!Pending(ops, size, k) ==> Entry(s.stats, k) == all)
  }

  const EMPTY: State := State([], map[])

  lemma StartsInStep(size: nat, k: Key)
    requires size > 0
    ensures InStep(EMPTY, [], size, k)
  {
  }

  lemma RunSnoc(s: State, ops: seq<Op>, size: nat)
    requires size > 0 && ops != []
    ensures Run(s, ops, size) == Apply(Run(s, ops[..|ops| - 1], size), ops[|ops| - 1], size)
  {
  }

  lemma {:induction false} RunStaysInStep(ops: seq<Op>, size: nat, k: Key)
    requires size > 0 && Legal(ops, size)
    ensures InStep(Run(EMPTY, ops, size), ops, size, k)
  {
    if ops == [] {
      StartsInStep(size, k);
    } else {
      RunStaysInStep(ops[..|ops| - 1], size, k);
      StepStaysInStep(Run(EMPTY, ops[..|ops| - 1], size), ops, size, k);
      RunSnoc(EMPTY, ops, size);
    }
  }

  lemma StepStaysInStep(s: State, ops: seq<Op>, size: nat, k: Key)
    requires size > 0 && ops != [] && Legal(ops, size) && InStep(s, ops[..|ops| - 1], size, k)
    ensures InStep(Apply(s, ops[|ops| - 1], size), ops, size, k)
  {
    var n := |ops| - 1;
    assert ops == ops[..n] + [ops[n]];
    match ops[n]
    case Log(r) => LogStaysInStep(s, ops[..n], r, size, k, ops);
    case Rollup(since) => RollupStaysInStep(s, ops[..n], since, size, k, ops);
    case Purge(before) => PurgeStaysInStep(s, ops[..n], before, size, k, ops);
  }

  lemma LogStaysInStep(s: State, init: seq<Op>, r: Row, size: nat, k: Key, ops: seq<Op>)
    requires size > 0 && ops == init + [Log(r)] && InStep(s, init, size, k)
    requires r.ts >= Cutoff(init)
    ensures InStep(Apply(s, Log(r), size), ops, size, k)
  {
    assert ops[..|init|] == init;
    TotalOfSnoc(s.rows, r, size, k, 0);
    TotalOfSnoc(Logged(init), r, size, k, 0);
    AlignedSplitsNoBucket(r.ts, Cutoff(init), size);
  }

  lemma RollupStaysInStep(s: State, init: seq<Op>, since: nat, size: nat, k: Key, ops: seq<Op>)
    requires size > 0 && ops == init + [Rollup(since)] && InStep(s, init, size, k)
    requires Aligned(since, size)
    ensures InStep(Apply(s, Rollup(since), size), ops, size, k)
  {
    assert ops[..|init|] == init;
    assert Logged(ops) == Logged(init);
    RolledEntry(s.stats, s.rows, size, since, k);
    TotalFromAligned(s.rows, size, k, since);
    var all := Total(Logged(init), size, k, 0);
    if Pending(init, size, k) && since <= k.bucket * 1000 {
      PendingWasLogged(init, size, k);
    }
  }

  lemma {:induction false} PendingWasLogged(ops: seq<Op>, size: nat, k: Key)
    requires size > 0 && Pending(ops, size, k)
    ensures Total(Logged(ops), size, k, 0).requests > 0
  {
    var n := |ops| - 1;
    match ops[n] {
      case Log(r) =>
        TotalOfSnoc(Logged(ops[..n]), r, size, k, 0);
        if KeyOf(r, size) != k {
          PendingWasLogged(ops[..n], size, k);
        }
      case _ =>
        assert Logged(ops) == Logged(ops[..n]);
        PendingWasLogged(ops[..n], size, k);
    }
  }

  lemma PurgeStaysInStep(s: State, init: seq<Op>, before: nat, size: nat, k: Key, ops: seq<Op>)
    requires size > 0 && ops == init + [Purge(before)] && InStep(s, init, size, k)
    requires Aligned(before, size)
    requires k.bucket * 1000 < before ==> !Pending(init, size, k)
    ensures InStep(Apply(s, Purge(before), size), ops, size, k)
  {
    assert ops[..|init|] == init;
    assert Logged(ops) == Logged(init);
    TotalOfKept(s.rows, size, k, 0, before);
    TotalFromAligned(s.rows, size, k, before);
  }

  /** Over every legal run, the entry of each bucket below the cutoff is the
      aggregate of all rows ever logged in it, though none of them is left in the
      raw log; so is every other entry a rollup has caught up with. */
  lemma TablesRememberPurgedRows(ops: seq<Op>, size: nat, k: Key)
    requires size > 0 && Legal(ops, size)
    ensures !Pending(ops, size, k) ==>
              Entry(Run(EMPTY, ops, size).stats, k) == Total(Logged(ops), size, k, 0)
    ensures !Pending(ops, size, k) && Aligned(k.bucket * 1000, size) ==>
              Sums(Entry(Run(EMPTY, ops, size).stats, k), Logged(ops), size, k, 0)
    ensures k.bucket * 1000 < Cutoff(ops) ==>
              && !Pending(ops, size, k)
              && Total(Run(EMPTY, ops, size).rows, size, k, 0) == ZERO
  {
    RunStaysInStep(ops, size, k);
    if Aligned(k.bucket * 1000, size) { TotalSums(Logged(ops), size, k, 0); }
  }

  /** Times on day boundaries serve the hourly table too. */
  lemma DayAlignedIsHourAligned(t: nat)
    requires Aligned(t, DAY)
    ensures Aligned(t, HOUR)
  {
    var days := t / (1000 * DAY);
    assert t == days * 86_400_000;
    DivIs(t, 24 * days, 0, 3_600_000);
  }

  /** The day an hour's bucket lies in. */
  function DayOf(k: Key): Key { Key(BucketOf(k.bucket * 1000, DAY), k.model) }

  lemma DayOfHour(ts: nat)
    ensures BucketOf(BucketOf(ts, HOUR) * 1000, DAY) == BucketOf(ts, DAY)
  {
    var h := ts / 1000 / 3600;
    var d, x := h / 24, h % 24;
    assert h * 3600 * 1000 / 1000 == h * 3600;
    assert h * 3600 == d * 86400 + x * 3600;
    DivIs(h * 3600, d, x * 3600, 86400);
    DivIs(ts / 1000, d, x * 3600 + ts / 1000 % 3600, 86400);
  }

  lemma DaySplitsNoDay(k: Key, t: nat)
    requires Aligned(t, DAY)
    ensures k.bucket * 1000 < t <==> DayOf(k).bucket * 1000 < t
  {
    AlignedSplitsNoBucket(k.bucket * 1000, t, DAY);
  }

  /** An hour that waits for a rollup makes its day wait. */
  lemma {:induction false} PendingHourPendingDay(ops: seq<Op>, k: Key)
    requires Legal(ops, DAY) && Pending(ops, HOUR, k)
    ensures Pending(ops, DAY, DayOf(k))
  {
    var n := |ops| - 1;
    match ops[n] {
      case Log(r) =>
        if KeyOf(r, HOUR) == k {
          DayOfHour(r.ts);
        } else {
          PendingHourPendingDay(ops[..n], k);
        }
      case Rollup(since) =>
        PendingHourPendingDay(ops[..n], k);
        DaySplitsNoDay(k, since);
      case Purge(_) => PendingHourPendingDay(ops[..n], k);
    }
  }

  lemma {:induction false} LegalByDayIsLegalByHour(ops: seq<Op>)
    requires Legal(ops, DAY)
    ensures Legal(ops, HOUR)
  {
    if ops != [] {
      var n := |ops| - 1;
      LegalByDayIsLegalByHour(ops[..n]);
      match ops[n] {
        case Log(_) =>
        case Rollup(since) => DayAlignedIsHourAligned(since);
        case Purge(before) =>
          DayAlignedIsHourAligned(before);
          forall k: Key | k.bucket * 1000 < before ensures !Pending(ops[..n], HOUR, k) {
            if Pending(ops[..n], HOUR, k) {
              PendingHourPendingDay(ops[..n], k);
              DaySplitsNoDay(k, before);
            }
          }
      }
    }
  }

  /** With times on day boundaries both tables of the store remember every purged row. */
  lemma BothTablesRememberPurgedRows(ops: seq<Op>, hour: Key, day: Key)
    requires Legal(ops, DAY)
    ensures hour.bucket * 1000 < Cutoff(ops) ==>
              Entry(Run(EMPTY, ops, HOUR).stats, hour) == Total(Logged(ops), HOUR, hour, 0)
    ensures day.bucket * 1000 < Cutoff(ops) ==>
              Entry(Run(EMPTY, ops, DAY).stats, day) == Total(Logged(ops), DAY, day, 0)
  {
    LegalByDayIsLegalByHour(ops);
    TablesRememberPurgedRows(ops, HOUR, hour);
    TablesRememberPurgedRows(ops, DAY, day);
  }

  // ----- The hourly maintenance cycle -----

  /** What the server does: roll up from the cutoff, then purge below it. */
  function Maintained(s: State, cutoff: nat, size: nat): State
    requires size > 0
  {
    Apply(Apply(s, Rollup(cutoff), size), Purge(cutoff), size)
  }

  /** The entry survives the cycle exactly when the cutoff does not fall between
      two of the bucket's rows. */
  lemma MaintenanceKeepsEntryIff(s: State, cutoff: nat, size: nat, k: Key)
    requires size > 0
    requires Entry(s.stats, k) == Total(s.rows, size, k, 0)
    ensures Entry(Maintained(s, cutoff, size).stats, k) == Total(s.rows, size, k, 0)
       <==> !Straddled(s.rows, size, k, cutoff)
  {
    RollupKeepsEntryIff(s.stats, s.rows, size, cutoff, k);
  }

  /** A cutoff on a bucket boundary never straddles. */
  lemma AlignedCutoffIsSafe(rows: seq<Row>, size: nat, k: Key, cutoff: nat)
    requires size > 0 && Aligned(cutoff, size)
    ensures !Straddled(rows, size, k, cutoff)
  {
    TotalFromAligned(rows, size, k, cutoff);
  }

  lemma StepCannotRecover(s: State, op: Op, size: nat, k: Key, bound: nat)
    requires size > 0
    requires Total(s.rows, size, k, 0).requests <= bound && Entry(s.stats, k).requests <= bound
    ensures var t := Apply(s, op, size);
            var more := if op.Log? && KeyOf(op.row, size) == k then 1 else 0;
            Total(t.rows, size, k, 0).requests <= bound + more && Entry(t.stats, k).requests <= bound + more
  {
    match op
    case Log(r) => TotalOfSnoc(s.rows, r, size, k, 0);
    case Rollup(since) =>
      RolledEntry(s.stats, s.rows, size, since, k);
      LaterIsLess(s.rows, size, k, 0, since);
    case Purge(before) =>
      TotalOfKept(s.rows, size, k, 0, before);
      LaterIsLess(s.rows, size, k, 0, before);
  }

  lemma {:induction false} RunCannotRecover(s: State, ops: seq<Op>, size: nat, k: Key, bound: nat)
    requires size > 0
    requires Total(s.rows, size, k, 0).requests <= bound && Entry(s.stats, k).requests <= bound
    ensures var t := Run(s, ops, size);
            var most := bound + Total(Logged(ops), size, k, 0).requests;
            Total(t.rows, size, k, 0).requests <= most && Entry(t.stats, k).requests <= most
  {
    if ops != [] {
      var n := |ops| - 1;
      RunCannotRecover(s, ops[..n], size, k, bound);
      StepCannotRecover(Run(s, ops[..n], size), ops[n], size, k,
                        bound + Total(Logged(ops[..n]), size, k, 0).requests);
      if ops[n].Log? {
        TotalOfSnoc(Logged(ops[..n]), ops[n].row, size, k, 0);
      } else {
        assert Logged(ops) == Logged(ops[..n]);
      }
    }
  }

  /** A bucket the cutoff cut in two is short of requests for ever: no later run of
      logging, rollups and purges brings the entry back to what was logged. */
  lemma StraddledBucketIsShortForever(s: State, cutoff: nat, size: nat, k: Key, ops: seq<Op>)
    requires size > 0 && Straddled(s.rows, size, k, cutoff)
    ensures Entry(Run(Maintained(s, cutoff, size), ops, size).stats, k).requests
          < Total(s.rows, size, k, 0).requests + Total(Logged(ops), size, k, 0).requests
  {
    var kept := Total(s.rows, size, k, cutoff);
    RolledEntry(s.stats, s.rows, size, cutoff, k);
    TotalOfKept(s.rows, size, k, 0, cutoff);
    RunCannotRecover(Maintained(s, cutoff, size), ops, size, k, kept.requests);
  }

  // The maintenance loop

  /** One turn of the loop: a plain rollup, or a rollup and purge at a cutoff; or a request. */
  datatype Tick = Roll(since: nat) | Cycle(cutoff: nat) | Arrives(row: Row)

  function After(s: State, ticks: seq<Tick>, size: nat): State
    requires size > 0
  {
    if ticks == [] then s
    else
      var t := After(s, ticks[..|ticks| - 1], size);
      match ticks[|ticks| - 1]
      case Roll(since) => Apply(t, Rollup(since), size)
      case Cycle(c) => Maintained(t, c, size)
      case Arrives(r) => t.(rows := t.rows + [r])
  }

  /** The last cutoff. */
  function Latest(ticks: seq<Tick>): nat {
    if ticks == [] then 0
    else
      var n := |ticks| - 1;
      if ticks[n].Cycle? then ticks[n].cutoff else Latest(ticks[..n])
  }

  ghost predicate Rising(ticks: seq<Tick>) {
    ticks == [] ||
    var n := |ticks| - 1;
    Rising(ticks[..n]) && (ticks[n].Cycle? ==> Latest(ticks[..n]) <= ticks[n].cutoff)
  }

  /** No more requests arrive in the bucket. */
  predicate Closed(ticks: seq<Tick>, size: nat, k: Key)
    requires size > 0
  {
    forall i | 0 <= i < |ticks| && ticks[i].Arrives? :: KeyOf(ticks[i].row, size) != k
  }

  function Later(a: nat, b: nat): nat { if a > b then a else b }

  /** The time from which the last tick recomputes entries: what was purged before is gone. */
  function From(ticks: seq<Tick>): nat
    requires ticks != [] && !ticks[|ticks| - 1].Arrives?
  {
    var n := |ticks| - 1;
    if ticks[n].Cycle? then ticks[n].cutoff else Later(ticks[n].since, Latest(ticks[..n]))
  }

  /** That time for the last tick that found a request of the bucket to recompute it from. */
  function LastHit(ticks: seq<Tick>, rows: seq<Row>, size: nat, k: Key): Option<nat>
    requires size > 0
  {
    if ticks == [] then None
    else
      var n := |ticks| - 1;
      if !ticks[n].Arrives? && Total(rows, size, k, From(ticks)).requests > 0 then Some(From(ticks))
      else LastHit(ticks[..n], rows, size, k)
  }

  /** The cycles take rows away only below their cutoffs. */
  lemma {:induction false} RowsFromLatest(s: State, ticks: seq<Tick>, size: nat, k: Key, since: nat)
    requires size > 0 && Rising(ticks) && Closed(ticks, size, k)
    ensures Total(After(s, ticks, size).rows, size, k, since) == Total(s.rows, size, k, Later(since, Latest(ticks)))
  {
    if ticks != [] {
      var n := |ticks| - 1;
      var t := After(s, ticks[..n], size);
      match ticks[n] {
        case Roll(_) => RowsFromLatest(s, ticks[..n], size, k, since);
        case Cycle(c) =>
          TotalOfKept(t.rows, size, k, since, c);
          RowsFromLatest(s, ticks[..n], size, k, Later(since, c));
        case Arrives(r) =>
          RowsFromLatest(s, ticks[..n], size, k, since);
          TotalOfSnoc(t.rows, r, size, k, since);
      }
    }
  }

  /** What the maintenance loop leaves of a closed bucket, whatever its rollups and rising cutoffs: the
      requests from the later of the last `since` that found one and the cutoffs purged before it. */
  lemma {:induction false} LoopLeavesTail(s: State, ticks: seq<Tick>, size: nat, k: Key)
    requires size > 0 && Rising(ticks) && Closed(ticks, size, k)
    ensures var c := LastHit(ticks, s.rows, size, k);
            Entry(After(s, ticks, size).stats, k)
            == if c.None? then Entry(s.stats, k) else Total(s.rows, size, k, c.value)
  {
    if ticks != [] {
      var n := |ticks| - 1;
      var t := After(s, ticks[..n], size);
      LoopLeavesTail(s, ticks[..n], size, k);
      if !ticks[n].Arrives? {
        var since := if ticks[n].Cycle? then ticks[n].cutoff else ticks[n].since;
        RowsFromLatest(s, ticks[..n], size, k, since);
        RolledEntry(t.stats, t.rows, size, since, k);
      }
    }
  }

  /** So a correct entry is still correct in the end exactly when that time does not fall between two of
      the bucket's requests. */
  lemma LoopKeepsEntryIff(s: State, ticks: seq<Tick>, size: nat, k: Key)
    requires size > 0 && Rising(ticks) && Closed(ticks, size, k)
    requires Entry(s.stats, k) == Total(s.rows, size, k, 0)
    ensures var c := LastHit(ticks, s.rows, size, k);
            Entry(After(s, ticks, size).stats, k) == Total(s.rows, size, k, 0)
            <==> c.None? || !Straddled(s.rows, size, k, c.value)
  {
    LoopLeavesTail(s, ticks, size, k);
    var c := LastHit(ticks, s.rows, size, k);
    if c.Some? {
      LastHitHits(ticks, s.rows, size, k);
      LaterIsLess(s.rows, size, k, 0, c.value);
      if Total(s.rows, size, k, c.value).requests == Total(s.rows, size, k, 0).requests {
        SameCountSameTotal(s.rows, size, k, 0, c.value);
      }
    }
  }

  lemma {:induction false} LastHitHits(ticks: seq<Tick>, rows: seq<Row>, size: nat, k: Key)
    requires size > 0 && LastHit(ticks, rows, size, k).Some?
    ensures Total(rows, size, k, LastHit(ticks, rows, size, k).value).requests > 0
  {
    var n := |ticks| - 1;
    if ticks[n].Arrives? || Total(rows, size, k, From(ticks)).requests == 0 {
      LastHitHits(ticks[..n], rows, size, k);
    }
  }

  /** Any two requests of one bucket with the cutoff between them make such a cycle. */
  lemma TwoRequestsStraddle(a: Row, b: Row, size: nat, cutoff: nat)
    requires size > 0 && KeyOf(a, size) == KeyOf(b, size) && a.ts < cutoff <= b.ts
    ensures Straddled([a, b], size, KeyOf(a, size), cutoff)
  {
    var k := KeyOf(a, size);
    TotalOfSnoc([], a, size, k, cutoff);
    TotalOfSnoc([], a, size, k, 0);
    TotalOfSnoc([a], b, size, k, cutoff);
    TotalOfSnoc([a], b, size, k, 0);
    assert [] + [a] == [a] && [a] + [b] == [a, b];
  }
}
