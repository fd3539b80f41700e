/**
 The benchmark's stand-in for a client connection: it receives the relayed stream in arbitrary
 chunks and parses it incrementally.
 */
module BenchWriter {
  import opened Options
  import opened Bytes
  import opened Frames

  // ---------------------------------------------------------------------------
  // Line-by-line consumption in general
  // ---------------------------------------------------------------------------

  /** The batch view: `step` over the complete lines of `s`, and the incomplete tail. */
  function Digest<M>(m: M, s: Bytes, step: (M, Bytes) -> M): (M, Bytes)
    decreases |s|
  {
    var i := Newline(s);
    if i.None? then (m, s) else Digest(step(m, s[..i.value + 1]), s[i.value + 1..], step)
  }

  lemma DigestLine<M>(m: M, s: Bytes, step: (M, Bytes) -> M, k: nat)
    requires Newline(s) == Some(k)
    ensures Digest(m, s, step) == Digest(step(m, s[..k + 1]), s[k + 1..], step)
  {
  }

  /** `step` over a sequence of lines. */
  function Fold<M>(m: M, lines: seq<Bytes>, step: (M, Bytes) -> M): M {
    if lines == [] then m else step(Fold(m, lines[..|lines| - 1], step), lines[|lines| - 1])
  }

  lemma FoldOneMore<M>(m: M, lines: seq<Bytes>, line: Bytes, step: (M, Bytes) -> M)
    ensures Fold(m, lines + [line], step) == step(Fold(m, lines, step), line)
  {
    assert (lines + [line])[..|lines|] == lines;
  }

  lemma {:induction false} FoldFirst<M>(m: M, l: Bytes, lines: seq<Bytes>, step: (M, Bytes) -> M)
    ensures Fold(m, [l] + lines, step) == Fold(step(m, l), lines, step)
    decreases |lines|
  {
    var all := [l] + lines;
    if lines == [] {
      assert all[..0] == [];
    } else {
      FoldFirst(m, l, lines[..|lines| - 1], step);
      assert all[..|all| - 1] == [l] + lines[..|lines| - 1];
    }
  }

  /** The complete lines of a text. */
  function CompleteLines(s: Bytes): seq<Bytes>
    decreases |s|
  {
    var i := Newline(s);
    if i.None? then [] else [s[..i.value + 1]] + CompleteLines(s[i.value + 1..])
  }

  /** Digesting a text goes over its complete lines. */
  lemma {:induction false} DigestIsFold<M>(m: M, s: Bytes, step: (M, Bytes) -> M)
    ensures Digest(m, s, step).0 == Fold(m, CompleteLines(s), step)
    decreases |s|
  {
    var i := Newline(s);
    if i.Some? {
      var l, rest := s[..i.value + 1], s[i.value + 1..];
      DigestLine(m, s, step, i.value);
      DigestIsFold(step(m, l), rest, step);
      FoldFirst(m, l, CompleteLines(rest), step);
    }
  }

  lemma ConcatLine(l: Bytes, lines: seq<Bytes>, tail: Bytes)
    ensures Concat([l] + lines) + tail == l + (Concat(lines) + tail)
  {
    assert ([l] + lines)[1..] == lines;
  }

  /** What follows the last newline. */
  function Tail(s: Bytes): Bytes
    decreases |s|
  {
    var i := Newline(s);
    if i.None? then s else Tail(s[i.value + 1..])
  }

  lemma ConcatOne(s: Bytes, k: nat, lines: seq<Bytes>, tail: Bytes)
    requires k <= |s| && s[k..] == Concat(lines) + tail
    ensures s == Concat([s[..k]] + lines) + tail
  {
    ConcatLine(s[..k], lines, tail);
    assert s == s[..k] + s[k..];
  }

  lemma {:induction false} LinesAndTail(s: Bytes)
    ensures s == Concat(CompleteLines(s)) + Tail(s)
    decreases |s|
  {
    var i := Newline(s);
    if i.Some? {
      LinesAndTail(s[i.value + 1..]);
      ConcatOne(s, i.value + 1, CompleteLines(s[i.value + 1..]), Tail(s[i.value + 1..]));
    } else {
      assert Concat([]) + s == s;
    }
  }

  /** And what it leaves over is what follows the last newline. */
  lemma {:induction false} DigestLeavesTail<M>(m: M, s: Bytes, step: (M, Bytes) -> M)
    ensures Digest(m, s, step).1 == Tail(s)
    decreases |s|
  {
    var i := Newline(s);
    if i.Some? {
      DigestLine(m, s, step, i.value);
      DigestLeavesTail(step(m, s[..i.value + 1]), s[i.value + 1..], step);
    }
  }

  /** Digesting `s` and then `t` after the tail of `s` is digesting both at once. */
  lemma {:induction false} DigestInTwo<M>(m: M, s: Bytes, t: Bytes, step: (M, Bytes) -> M)
    ensures Digest(Digest(m, s, step).0, Digest(m, s, step).1 + t, step) == Digest(m, s + t, step)
    decreases |s|
  {
    NewlineOfConcat(s, t);
    var i := Newline(s);
    if i.Some? {
      var k := i.value;
      assert (s + t)[..k + 1] == s[..k + 1] && (s + t)[k + 1..] == s[k + 1..] + t;
      DigestLine(m, s, step, k);
      DigestLine(m, s + t, step, k);
      DigestInTwo(step(m, s[..k + 1]), s[k + 1..], t, step);
    }
  }

  /** The state after a sequence of writes. */
  function Writes<M>(m: M, partial: Bytes, chunks: seq<Bytes>, step: (M, Bytes) -> M): (M, Bytes)
    decreases |chunks|
  {
    if chunks == [] then (m, partial)
    else
      var r := Digest(m, partial + chunks[0], step);
      Writes(r.0, r.1, chunks[1..], step)
  }

  lemma {:induction false} TailHasNoNewline<M>(m: M, s: Bytes, step: (M, Bytes) -> M)
    ensures Newline(Digest(m, s, step).1).None?
    decreases |s|
  {
    var i := Newline(s);
    if i.Some? {
      TailHasNoNewline(step(m, s[..i.value + 1]), s[i.value + 1..], step);
    }
  }

  /** However the stream is cut into chunks, the result is that of one write of the whole stream. */
  lemma {:induction false} ChunkingIsInvisible<M>(m: M, partial: Bytes, chunks: seq<Bytes>, step: (M, Bytes) -> M)
    requires Newline(partial).None?
    ensures Writes(m, partial, chunks, step) == Digest(m, partial + Concat(chunks), step)
    decreases |chunks|
  {
    var all := partial + Concat(chunks);
    if chunks == [] {
      assert all == partial;
    } else {
      var s, rest := partial + chunks[0], Concat(chunks[1..]);
      assert all == s + rest;
      DigestInTwo(m, s, rest, step);
      var r := Digest(m, s, step);
      assert Newline(r.1).None? by { TailHasNoNewline(m, s, step); }
      ChunkingIsInvisible(r.0, r.1, chunks[1..], step);
      assert Writes(m, partial, chunks, step) == Writes(r.0, r.1, chunks[1..], step);
    }
  }

  // ---------------------------------------------------------------------------
  // What the benchmark learns
  // ---------------------------------------------------------------------------

  /** The last usage report, and the number of frames that carried tokens. */
  datatype Marks<U> = Marks(usage: Option<U>, tokens: nat)

  function OnLine<U>(m: Marks<U>, line: Bytes, parse: Bytes -> Option<U>): Marks<U> {
    var payload := SseData(line);
    if payload.None? || payload.value == DONE then m
    else if HasUsage(payload.value) then
      var u := parse(payload.value);
      if u.Some? then m.(usage := u) else m
    else if CarriesToken(payload.value) then m.(tokens := m.tokens + 1)
    else m
  }

  function Step<U>(parse: Bytes -> Option<U>): (Marks<U>, Bytes) -> Marks<U> {
    (m, line) => OnLine(m, line, parse)
  }

  /** The accounting of a sequence of lines. */
  function Account<U>(m: Marks<U>, lines: seq<Bytes>, parse: Bytes -> Option<U>): Marks<U> {
    Fold(m, lines, Step(parse))
  }

  lemma AccountOneMore<U>(m: Marks<U>, seen: seq<Bytes>, line: Bytes, parse: Bytes -> Option<U>)
    ensures Account(m, seen + [line], parse) == OnLine(Account(m, seen, parse), line, parse)
  {
    FoldOneMore(m, seen, line, Step(parse));
  }

  // What the accounting keeps, in terms of the lines

  /** The line is data, other than [DONE]. */
  predicate IsFrame(line: Bytes) {
    SseData(line).Some? && SseData(line).value != DONE
  }

  /** What a usage frame parses to; None for any other line. */
  function ReportIn<U>(line: Bytes, parse: Bytes -> Option<U>): Option<U> {
    if IsFrame(line) && HasUsage(SseData(line).value) then parse(SseData(line).value) else None
  }

  /** The line carries a token and no usage. */
  predicate IsToken(line: Bytes) {
    IsFrame(line) && !HasUsage(SseData(line).value) && CarriesToken(SseData(line).value)
  }

  function Reports<U>(parse: Bytes -> Option<U>): Bytes -> Option<U> {
    line => ReportIn(line, parse)
  }

  function Count(lines: seq<Bytes>, p: Bytes -> bool): nat {
    if lines == [] then 0
    else Count(lines[..|lines| - 1], p) + if p(lines[|lines| - 1]) then 1 else 0
  }

  ghost predicate LastReport<U>(lines: seq<Bytes>, i: nat, report: Bytes -> Option<U>) {
    i < |lines| && report(lines[i]).Some? && forall j | i < j < |lines| :: report(lines[j]).None?
  }

  ghost predicate NoReport<U>(lines: seq<Bytes>, report: Bytes -> Option<U>) {
    forall i | 0 <= i < |lines| :: report(lines[i]).None?
  }

  /** From `m0`, the lines leave the last report there is, or the usage as it was when there is none, and
      one more token for each line that carries one. */
  ghost predicate MarkedBy<U>(m0: Marks<U>, m: Marks<U>, lines: seq<Bytes>, report: Bytes -> Option<U>, token: Bytes -> bool) {
    && m.tokens == m0.tokens + Count(lines, token)
    && (forall i: nat | LastReport(lines, i, report) :: m.usage == report(lines[i]))
    && (NoReport(lines, report) ==> m.usage == m0.usage)
    && (m0.usage.None? && m.usage.None? ==> NoReport(lines, report))
  }

  /** The same for usage frames that parse and lines that carry tokens. */
  ghost predicate Marked<U>(m0: Marks<U>, m: Marks<U>, lines: seq<Bytes>, parse: Bytes -> Option<U>) {
    MarkedBy(m0, m, lines, Reports(parse), IsToken)
  }

  function Mark<U>(m: Marks<U>, u: Option<U>, token: bool): Marks<U> {
    Marks(if u.Some? then u else m.usage, m.tokens + if token then 1 else 0)
  }

  lemma OnLineMarks<U>(m: Marks<U>, line: Bytes, parse: Bytes -> Option<U>)
    ensures OnLine(m, line, parse) == Mark(m, ReportIn(line, parse), IsToken(line))
  {
  }

  lemma MarkedOneMore<U>(m0: Marks<U>, m: Marks<U>, lines: seq<Bytes>, line: Bytes, report: Bytes -> Option<U>, token: Bytes -> bool)
    requires MarkedBy(m0, m, lines, report, token)
    ensures MarkedBy(m0, Mark(m, report(line), token(line)), lines + [line], report, token)
  {
    var all, n := lines + [line], |lines|;
    assert all[..n] == lines && all[n] == line;
    assert forall i | 0 <= i < n :: all[i] == lines[i];
    if report(line).Some? {
      assert forall i: nat :: LastReport(all, i, report) ==> i == n;
    } else {
      assert forall i: nat :: LastReport(all, i, report) ==> LastReport(lines, i, report);
    }
  }

  lemma {:induction false} AccountMeans<U>(m: Marks<U>, lines: seq<Bytes>, parse: Bytes -> Option<U>)
    ensures Marked(m, Account(m, lines, parse), lines, parse)
    decreases |lines|
  {
    if lines != [] {
      var n := |lines| - 1;
      AccountMeans(m, lines[..n], parse);
      assert lines == lines[..n] + [lines[n]];
      AccountOneMore(m, lines[..n], lines[n], parse);
      OnLineMarks(Account(m, lines[..n], parse), lines[n], parse);
      MarkedOneMore(m, Account(m, lines[..n], parse), lines[..n], lines[n], Reports(parse), IsToken);
    }
  }

  class Writer<U> {
    const parse: Bytes -> Option<U>
    var usage: Option<U>
    var firstToken: Option<int>
    var lastToken: Option<int>
    var partial: Bytes
    ghost var tokens: nat

    ghost function View(): Marks<U>
      reads this
    {
      Marks(usage, tokens)
    }

    ghost predicate Valid()
      reads this
    {
      (firstToken.Some? <==> tokens > 0) && (lastToken.Some? <==> tokens > 0)
    }

    constructor (parse: Bytes -> Option<U>)
      ensures Valid() && this.parse == parse && partial == [] && View() == Marks(None, 0)
    {
      this.parse := parse;
      usage, firstToken, lastToken, partial, tokens := None, None, None, [], 0;
    }

    /** One complete line. */
    method TakeLine(line: Bytes, now: int)
      requires Valid()
      modifies this`usage, this`firstToken, this`lastToken, this`tokens
      ensures Valid() && View() == Step(parse)(old(View()), line)
      ensures usage == (if ReportIn(line, parse).Some? then ReportIn(line, parse) else old(usage))
      ensures tokens == old(tokens) + if IsToken(line) then 1 else 0
      ensures firstToken == (if old(firstToken).Some? || tokens == old(tokens) then old(firstToken) else Some(now))
      ensures lastToken == (if tokens == old(tokens) then old(lastToken) else Some(now))
      ensures tokens >= old(tokens)
    {
      var payload := SseData(line);
      if payload.None? || payload.value == DONE {
        return;
      }
      if HasUsage(payload.value) {
        var u := parse(payload.value);
        if u.Some? {
          usage := u;
        }
        return;
      }
      if CarriesToken(payload.value) {
        if firstToken.None? {
          firstToken := Some(now);
        }
        lastToken := Some(now);
        tokens := tokens + 1;
      }
    }

    method Write(p: Bytes, now: int)
      requires Valid()
      modifies this
      ensures Valid()
      ensures (View(), partial) == Digest(old(View()), old(partial) + p, Step(parse))
      ensures Marked(old(View()), View(), CompleteLines(old(partial) + p), parse)
      ensures old(partial) + p == Concat(CompleteLines(old(partial) + p)) + partial && '\n' !in partial
      ensures firstToken == (if old(firstToken).Some? || tokens == old(tokens) then old(firstToken) else Some(now))
      ensures lastToken == (if tokens == old(tokens) then old(lastToken) else Some(now))
    {
      ghost var step := Step(parse);
      partial := partial + p;
      var idx := Newline(partial);
      while idx.Some?
        invariant Valid() && idx == Newline(partial) && tokens >= old(tokens)
        invariant Digest(View(), partial, step) == Digest(old(View()), old(partial) + p, step)
        invariant firstToken == (if old(firstToken).Some? || tokens == old(tokens) then old(firstToken) else Some(now))
        invariant lastToken == (if tokens == old(tokens) then old(lastToken) else Some(now))
        decreases |partial|
      {
        var line := partial[..idx.value + 1];
        partial := partial[idx.value + 1..];
        TakeLine(line, now);
        idx := Newline(partial);
      }
      DigestIsFold(old(View()), old(partial) + p, step);
      DigestLeavesTail(old(View()), old(partial) + p, step);
      LinesAndTail(old(partial) + p);
      AccountMeans(old(View()), CompleteLines(old(partial) + p), parse);
    }
  }
}
