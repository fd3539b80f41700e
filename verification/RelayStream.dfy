/**
 The relay loop itself: it reads upstream lines through the bounded reader, accounts for usage and
 tokens, and writes through the shared writer, into which keep-alives may fall between any two
 writes. Clock readings, ticks and write results are arbitrary.
 */
module RelayStream {
  import opened Options
  import opened Bytes
  import opened SseReader
  import opened Frames
  import opened Catalog
  import opened SseClient
  import opened SseRelay
  import opened BenchWriter

  class SseWriter {
    var carried: Bytes
    var failed: bool
    var last: int

    ghost function View(): Connection
      reads this
    {
      Connection(carried, failed)
    }

    constructor (now: int)
      ensures View() == Connection([], false) && last == now
    {
      carried, failed, last := [], false, now;
    }

    /** Write and flush a frame; after the first failure nothing more is written. */
    method WriteFlush(p: Bytes, r: WriteResult, now: int) returns (ok: bool)
      modifies this
      ensures View() == Send(old(View()), p, r)
      ensures ok == !failed && last == if ok then now else old(last)
    {
      if failed {
        return false;
      }
      match r {
        case Accepted =>
          carried, last := carried + p, now;
          return true;
        case Broken(n) =>
          carried, failed := carried + p[..if n < |p| then n else |p|], true;
          return false;
      }
    }

    /** A comment when the stream has been silent for `idle`; says whether it wrote. */
    method KeepAliveIfIdle(idle: int, r: WriteResult, now: int) returns (wrote: bool)
      modifies this
      ensures wrote == (now - old(last) >= idle)
      ensures View() == if wrote then Send(old(View()), KEEPALIVE, r) else old(View())
    {
      if now - last < idle {
        return false;
      }
      var _ := WriteFlush(KEEPALIVE, r, now);
      return true;
    }
  }

  lemma {:induction false} InterleavedKeepAlive(w: seq<Bytes>, fs: seq<Bytes>, ka: Bytes)
    requires Interleaved(w, fs, ka)
    ensures Interleaved(w + [ka], fs, ka)
    decreases |w|
  {
    if w == [] {
      assert (w + [ka])[1..] == [];
    } else {
      assert (w + [ka])[1..] == w[1..] + [ka];
      if w[0] == ka && Interleaved(w[1..], fs, ka) {
        InterleavedKeepAlive(w[1..], fs, ka);
      } else {
        InterleavedKeepAlive(w[1..], fs[1..], ka);
      }
    }
  }

  lemma {:induction false} SendOneMore(s: Connection, ws: seq<Bytes>, rs: seq<WriteResult>, p: Bytes, r: WriteResult)
    requires |ws| == |rs|
    ensures SendAll(s, ws + [p], rs + [r]) == Send(SendAll(s, ws, rs), p, r)
    decreases |ws|
  {
    if ws == [] {
      assert (ws + [p])[1..] == [];
    } else {
      SendOneMore(Send(s, ws[0], rs[0]), ws[1..], rs[1..], p, r);
      assert (ws + [p])[1..] == ws[1..] + [p] && (rs + [r])[1..] == rs[1..] + [r];
    }
  }

  lemma ForwardInTwo(a: seq<Bytes>, b: seq<Bytes>, entry: Entry, dropUsage: bool)
    ensures ForwardAll(a + b, entry, dropUsage) == ForwardAll(a, entry, dropUsage) + ForwardAll(b, entry, dropUsage)
  {
    EachInTwo(a, b, Forwarder(entry, dropUsage));
  }

  lemma ForwardOneMore(a: seq<Bytes>, line: Bytes, entry: Entry, dropUsage: bool)
    ensures ForwardAll(a + [line], entry, dropUsage)
            == ForwardAll(a, entry, dropUsage) + Written(Forward(line, entry, dropUsage))
  {
    ForwardInTwo(a, [line], entry, dropUsage);
    assert [line] == [line] + [];
    EachFirst(line, [], Forwarder(entry, dropUsage));
  }

  /** The writes `w`, with results `rs`, are those of the lines `seen`, with keep-alives anywhere. */
  ghost predicate Wrote(s0: Connection, s: Connection, w: seq<Bytes>, rs: seq<WriteResult>, seen: seq<Bytes>, entry: Entry, dropUsage: bool) {
    && |w| == |rs|
    && s == SendAll(s0, w, rs)
    && Interleaved(w, ForwardAll(seen, entry, dropUsage), KEEPALIVE)
  }

  lemma WroteKeepAlive(s0: Connection, s: Connection, w: seq<Bytes>, rs: seq<WriteResult>, r: WriteResult, seen: seq<Bytes>, entry: Entry, dropUsage: bool)
    requires Wrote(s0, s, w, rs, seen, entry, dropUsage)
    ensures Wrote(s0, Send(s, KEEPALIVE, r), w + [KEEPALIVE], rs + [r], seen, entry, dropUsage)
  {
    SendOneMore(s0, w, rs, KEEPALIVE, r);
    InterleavedKeepAlive(w, ForwardAll(seen, entry, dropUsage), KEEPALIVE);
  }

  lemma WroteLine(s0: Connection, s: Connection, w: seq<Bytes>, rs: seq<WriteResult>, r: WriteResult, seen: seq<Bytes>, line: Bytes, entry: Entry, dropUsage: bool)
    requires Wrote(s0, s, w, rs, seen, entry, dropUsage)
    ensures var f := Forward(line, entry, dropUsage);
            if f.Some? then Wrote(s0, Send(s, f.value, r), w + [f.value], rs + [r], seen + [line], entry, dropUsage)
            else Wrote(s0, s, w, rs, seen + [line], entry, dropUsage)
  {
    var f, fs := Forward(line, entry, dropUsage), ForwardAll(seen, entry, dropUsage);
    ForwardOneMore(seen, line, entry, dropUsage);
    if f.Some? {
      SendOneMore(s0, w, rs, f.value, r);
      InterleavedExtends(w, fs, [f.value], KEEPALIVE);
    } else {
      assert fs + [] == fs;
    }
  }

  /** The keep-alive goroutine's turns between two steps of the relay loop. */
  method Ticks(sw: SseWriter, idle: int, ghost s0: Connection, ghost w0: seq<Bytes>, ghost rs0: seq<WriteResult>,
               ghost seen: seq<Bytes>, ghost entry: Entry, ghost dropUsage: bool)
    returns (ghost w: seq<Bytes>, ghost rs: seq<WriteResult>)
    requires Wrote(s0, sw.View(), w0, rs0, seen, entry, dropUsage)
    modifies sw
    ensures Wrote(s0, sw.View(), w, rs, seen, entry, dropUsage) && w0 <= w && rs0 <= rs
  {
    w, rs := w0, rs0;
    var ticks: nat := *;
    while ticks > 0
      invariant Wrote(s0, sw.View(), w, rs, seen, entry, dropUsage) && w0 <= w && rs0 <= rs
    {
      var r: WriteResult := *;
      var now: int := *;
      ghost var before := sw.View();
      var wrote := sw.KeepAliveIfIdle(idle, r, now);
      if wrote {
        WroteKeepAlive(s0, before, w, rs, r, seen, entry, dropUsage);
        w, rs := w + [KEEPALIVE], rs + [r];
      }
      ticks := ticks - 1;
    }
  }

  /** A line whose failed write ends the relay: neither [DONE] nor a usage frame. */
  predicate Ordinary(line: Bytes) {
    var payload := SseData(line);
    payload.None? || (payload.value != DONE && !HasUsage(payload.value))
  }

  /** One line's turn in the relay loop. `stop` says that the client is gone. */
  method RelayLine(sw: SseWriter, line: Bytes, entry: Entry, dropUsage: bool, r: WriteResult, now: int) returns (stop: bool)
    modifies sw
    ensures var f := Forward(line, entry, dropUsage);
            sw.View() == if f.Some? then Send(old(sw.View()), f.value, r) else old(sw.View())
    ensures stop <==> Ordinary(line) && sw.failed
  {
    var payload := SseData(line);
    if payload.Some? && payload.value == DONE {
      var _ := sw.WriteFlush(line, r, now);
      return false;
    }
    if payload.Some? && HasUsage(payload.value) {
      if !dropUsage {
        var patched := PatchModelName(entry, line);
        var _ := sw.WriteFlush(patched, r, now);
      }
      return false;
    }
    var out := line;
    if payload.Some? {
      out := PatchModelName(entry, line);
    }
    var ok := sw.WriteFlush(out, r, now);
    return !ok;
  }

  method AccountLine<U>(m: Marks<U>, line: Bytes, parse: Bytes -> Option<U>) returns (m': Marks<U>)
    ensures m' == OnLine(m, line, parse)
    ensures m'.usage == (if ReportIn(line, parse).Some? then ReportIn(line, parse) else m.usage)
    ensures m'.tokens == m.tokens + if IsToken(line) then 1 else 0
  {
    m' := m;
    var payload := SseData(line);
    if payload.Some? && payload.value != DONE {
      if HasUsage(payload.value) {
        var u := parse(payload.value);
        if u.Some? {
          m' := m'.(usage := u);
        }
      } else if CarriesToken(payload.value) {
        m' := m'.(tokens := m'.tokens + 1);
      }
    }
  }

  /** One line's turn with its writes recorded. */
  method RelayRecorded(sw: SseWriter, line: Bytes, entry: Entry, dropUsage: bool, ghost s0: Connection,
                       ghost w0: seq<Bytes>, ghost rs0: seq<WriteResult>, ghost seen: seq<Bytes>)
    returns (stop: bool, ghost w: seq<Bytes>, ghost rs: seq<WriteResult>)
    requires Wrote(s0, sw.View(), w0, rs0, seen, entry, dropUsage)
    modifies sw
    ensures Wrote(s0, sw.View(), w, rs, seen + [line], entry, dropUsage) && w0 <= w && rs0 <= rs
    ensures stop <==> Ordinary(line) && sw.failed
  {
    w, rs := w0, rs0;
    var r: WriteResult := *;
    var now: int := *;
    WroteLine(s0, sw.View(), w, rs, r, seen, line, entry, dropUsage);
    stop := RelayLine(sw, line, entry, dropUsage, r, now);
    ghost var f := Forward(line, entry, dropUsage);
    if f.Some? {
      w, rs := w + [f.value], rs + [r];
    }
  }

  /** The reader's part of a turn: the next line, unless the stream is at its end. */
  method NextLine(r: Reader) returns (line: Bytes, err: ReadError)
    requires r.size > 0
    modifies r
    ensures SplitLines(old(r.rest)) == (if |line| > 0 then [line] else []) + SplitLines(r.rest)
    ensures if err == NoError then |r.rest| < |old(r.rest)| else err == Ending(r.broken) && r.rest == []
  {
    line, err := ReadSSELine(r);
  }

  /** A line is accounted for and then relayed. */
  method Handle<U>(sw: SseWriter, line: Bytes, entry: Entry, dropUsage: bool, parse: Bytes -> Option<U>, m0: Marks<U>,
                   ghost s0: Connection, ghost seen: seq<Bytes>, ghost w0: seq<Bytes>, ghost rs0: seq<WriteResult>)
    returns (marks: Marks<U>, stop: bool, ghost w: seq<Bytes>, ghost rs: seq<WriteResult>)
    requires m0 == Account(Marks(None, 0), seen, parse) && Wrote(s0, sw.View(), w0, rs0, seen, entry, dropUsage)
    modifies sw
    ensures marks == Account(Marks(None, 0), seen + [line], parse)
    ensures Wrote(s0, sw.View(), w, rs, seen + [line], entry, dropUsage) && w0 <= w && rs0 <= rs
    ensures stop <==> Ordinary(line) && sw.failed
  {
    marks := AccountLine(m0, line, parse);
    AccountOneMore(Marks(None, 0), seen, line, parse);
    stop, w, rs := RelayRecorded(sw, line, entry, dropUsage, s0, w0, rs0, seen);
  }

  lemma SeenGrows(seen: seq<Bytes>, line: Bytes, before: seq<Bytes>, after: seq<Bytes>)
    requires before == (if |line| > 0 then [line] else []) + after
    ensures (if |line| > 0 then seen + [line] else seen) + after == seen + before
  {
  }

  /** One more line was handled, and it ended the relay exactly when it was an ordinary one and the
      connection has failed. */
  ghost predicate OneLineMore(seen0: seq<Bytes>, seen: seq<Bytes>, stop: bool, failed: bool) {
    |seen| == |seen0| + 1 && seen[..|seen0|] == seen0 && (stop <==> Ordinary(seen[|seen0|]) && failed)
  }

  /** `cuts[i]` writes were made up to line `i`. The connection had failed by then after an ordinary line
      exactly when that line ended the relay. */
  ghost predicate Followed(s0: Connection, w: seq<Bytes>, rs: seq<WriteResult>, seen: seq<Bytes>, cuts: seq<nat>, stop: bool) {
    && |w| == |rs| && |cuts| == |seen| && (stop ==> seen != [])
    && forall i | 0 <= i < |seen| ::
         && cuts[i] <= |w|
         && (Ordinary(seen[i]) && SendAll(s0, w[..cuts[i]], rs[..cuts[i]]).failed <==> stop && i == |seen| - 1)
  }

  lemma FollowedGrows(s0: Connection, w: seq<Bytes>, rs: seq<WriteResult>, w': seq<Bytes>, rs': seq<WriteResult>,
                      seen: seq<Bytes>, cuts: seq<nat>)
    requires Followed(s0, w, rs, seen, cuts, false) && w <= w' && rs <= rs' && |w'| == |rs'|
    ensures Followed(s0, w', rs', seen, cuts, false)
  {
    forall i | 0 <= i < |seen| ensures w'[..cuts[i]] == w[..cuts[i]] && rs'[..cuts[i]] == rs[..cuts[i]] {
    }
  }

  lemma FollowedLine(s0: Connection, w: seq<Bytes>, rs: seq<WriteResult>, seen0: seq<Bytes>, seen: seq<Bytes>, cuts: seq<nat>, stop: bool)
    requires Followed(s0, w, rs, seen0, cuts, false) && OneLineMore(seen0, seen, stop, SendAll(s0, w, rs).failed)
    ensures Followed(s0, w, rs, seen, cuts + [|w|], stop)
  {
    assert w[..|w|] == w && rs[..|w|] == rs;
    assert forall i | 0 <= i < |seen0| :: seen[i] == seen0[i];
  }

  /** One turn of the relay loop: any keep-alives that fall due, then one line. */
  method Turn<U>(r: Reader, sw: SseWriter, entry: Entry, dropUsage: bool, parse: Bytes -> Option<U>, idle: int, m0: Marks<U>,
                 ghost s0: Connection, ghost seen0: seq<Bytes>, ghost w0: seq<Bytes>, ghost rs0: seq<WriteResult>)
    returns (marks: Marks<U>, err: ReadError, stop: bool, ghost seen: seq<Bytes>, ghost w: seq<Bytes>, ghost rs: seq<WriteResult>)
    requires r.size > 0
    requires m0 == Account(Marks(None, 0), seen0, parse) && Wrote(s0, sw.View(), w0, rs0, seen0, entry, dropUsage)
    modifies r, sw
    ensures seen + SplitLines(r.rest) == seen0 + SplitLines(old(r.rest))
    ensures marks == Account(Marks(None, 0), seen, parse) && Wrote(s0, sw.View(), w, rs, seen, entry, dropUsage)
    ensures w0 <= w && rs0 <= rs
    ensures if err == NoError then |r.rest| < |old(r.rest)| else err == Ending(r.broken) && r.rest == []
    ensures (seen == seen0 && !stop) || OneLineMore(seen0, seen, stop, sw.failed)
  {
    marks, seen, stop := m0, seen0, false;
    w, rs := Ticks(sw, idle, s0, w0, rs0, seen, entry, dropUsage);
    var line;
    ghost var before := SplitLines(r.rest);
    line, err := NextLine(r);
    SeenGrows(seen, line, before, SplitLines(r.rest));
    if |line| > 0 {
      marks, stop, w, rs := Handle(sw, line, entry, dropUsage, parse, marks, s0, seen, w, rs);
      seen := seen + [line];
    }
  }

  /** How a relay is recorded: 200, 499 or 500. */
  datatype Outcome = Completed | ClientGone | UpstreamFailed

  /** The record of a relay that read everything there was: a read that fails once the client has
      gone is the client's doing. */
  function OutcomeOf(broken: bool, clientGone: bool): Outcome {
    if !broken then Completed else if clientGone then ClientGone else UpstreamFailed
  }

  /** Relay a stream to its end, or to the first ordinary line after whose turn the connection has
      failed. `seen` are the lines read, `w` the writes attempted, `rs` how each ended, `cuts` how many
      were made up to each line. */
  method RelayStream<U>(r: Reader, sw: SseWriter, entry: Entry, dropUsage: bool, parse: Bytes -> Option<U>, idle: int,
                        clientGone: bool)
    returns (marks: Marks<U>, outcome: Outcome, stop: bool,
             ghost seen: seq<Bytes>, ghost w: seq<Bytes>, ghost rs: seq<WriteResult>, ghost cuts: seq<nat>)
    requires r.size > 0
    modifies r, sw
    ensures seen <= SplitLines(old(r.rest)) && (!stop ==> seen == SplitLines(old(r.rest)))
    ensures marks == Account(Marks(None, 0), seen, parse)
    ensures Wrote(old(sw.View()), sw.View(), w, rs, seen, entry, dropUsage)
    ensures Marked(Marks(None, 0), marks, seen, parse)
    ensures Followed(old(sw.View()), w, rs, seen, cuts, stop)
    ensures stop ==> sw.failed
    ensures outcome == if stop then ClientGone else OutcomeOf(r.broken, clientGone)
  {
    marks, seen, w, rs, cuts, stop := Marks(None, 0), [], [], [], [], false;
    ghost var s0 := sw.View();
    var err := NoError;
    while err == NoError && !stop
      invariant seen + SplitLines(r.rest) == SplitLines(old(r.rest))
      invariant err != NoError ==> r.rest == [] && err == Ending(r.broken)
      invariant marks == Account(Marks(None, 0), seen, parse)
      invariant Wrote(s0, sw.View(), w, rs, seen, entry, dropUsage)
      invariant Followed(s0, w, rs, seen, cuts, stop)
      invariant stop ==> sw.failed
      decreases err == NoError, |r.rest|
    {
      ghost var seen0, w0, rs0 := seen, w, rs;
      marks, err, stop, seen, w, rs := Turn(r, sw, entry, dropUsage, parse, idle, marks, s0, seen, w, rs);
      FollowedGrows(s0, w0, rs0, w, rs, seen0, cuts);
      if |seen| > |seen0| {
        FollowedLine(s0, w, rs, seen0, seen, cuts, stop);
        cuts := cuts + [|w|];
      }
    }
    AccountMeans(Marks(None, 0), seen, parse);
    if stop {
      outcome := ClientGone;
    } else if err == EndOfStream {
      outcome := Completed;
    } else if clientGone {
      outcome := ClientGone;
    } else {
      outcome := UpstreamFailed;
    }
  }

  /** Accounting does not depend on what was withheld from the client: the same lines give the same
      marks whether usage frames are dropped or not, and the benchmark's incremental parse of a
      whole stream agrees with it. */
  lemma {:induction false} AccountIsDigest<U>(m: Marks<U>, s: Bytes, parse: Bytes -> Option<U>)
    requires s == [] || s[|s| - 1] == '\n'
    ensures Digest(m, s, Step(parse)) == (Account(m, SplitLines(s), parse), [])
    decreases |s|
  {
    if s != [] {
      var l := FirstLine(s);
      var rest := s[|l|..];
      AccountIsDigest(OnLine(m, l, parse), rest, parse);
      FoldFirst(m, l, SplitLines(rest), Step(parse));
    }
  }

  /** What the client of a finished relay has dispatched: a prefix of the upstream events, patched and
      without the withheld usage events, and all of them when the relay ran to the end unbroken. */
  lemma ClientOfRelay(es: seq<Bytes>, entry: Entry, dropUsage: bool, seen: seq<Bytes>, s: Connection, w: seq<Bytes>, rs: seq<WriteResult>)
    requires OneLineEvents(es) && GoodNames(entry) && seen <= SplitLines(Stream(es))
    requires Wrote(Connection([], false), s, w, rs, seen, entry, dropUsage)
    ensures Feed(NewClient(), s.carried).messages <= Messages(Delivered(es, entry, dropUsage))
    ensures !s.failed && seen == SplitLines(Stream(es)) ==>
              Feed(NewClient(), s.carried).messages == Messages(Delivered(es, entry, dropUsage))
  {
    var lines := SplitLines(Stream(es));
    var fs, k := ForwardAll(lines, entry, dropUsage), |ForwardAll(seen, entry, dropUsage)|;
    assert lines == seen + lines[|seen|..];
    ForwardInTwo(seen, lines[|seen|..], entry, dropUsage);
    assert fs[..k] == ForwardAll(seen, entry, dropUsage);
    BrokenRelayDeliversPrefix(es, entry, dropUsage, k, w, rs);
  }
}
