/**
 The streaming relay: upstream lines are forwarded, patched or withheld one at a time, while a
 keep-alive ticker writes comments into the same response at arbitrary moments between them.
 */
module SseRelay {
  import opened Options
  import opened Bytes
  import opened Frames
  import opened Catalog
  import opened SseClient

  const KEEPALIVE := ": keepalive\n\n"

  // ---------------------------------------------------------------------------
  // What is written for each upstream line
  // ---------------------------------------------------------------------------

  /** The bytes written for a line, None when it is withheld. */
  function Forward(line: Bytes, entry: Entry, dropUsage: bool): Option<Bytes> {
    var payload := SseData(line);
    if payload.None? || payload.value == DONE then Some(line)
    else if HasUsage(payload.value) then if dropUsage then None else Some(Patch(entry, line))
    else Some(Patch(entry, line))
  }

  function Written(f: Option<Bytes>): seq<Bytes> {
    if f.Some? then [f.value] else []
  }

  function Each(lines: seq<Bytes>, f: Bytes -> Option<Bytes>): seq<Bytes> {
    if lines == [] then [] else Written(f(lines[0])) + Each(lines[1..], f)
  }

  function Forwarder(entry: Entry, dropUsage: bool): Bytes -> Option<Bytes> {
    line => Forward(line, entry, dropUsage)
  }

  /** The writes for the lines of a stream. */
  function ForwardAll(lines: seq<Bytes>, entry: Entry, dropUsage: bool): seq<Bytes> {
    Each(lines, Forwarder(entry, dropUsage))
  }

  lemma EachFirst(line: Bytes, rest: seq<Bytes>, f: Bytes -> Option<Bytes>)
    ensures Each([line] + rest, f) == Written(f(line)) + Each(rest, f)
  {
    assert ([line] + rest)[1..] == rest;
  }

  lemma Associate(a: seq<Bytes>, b: seq<Bytes>, c: seq<Bytes>)
    ensures (a + b) + c == a + (b + c)
  {
  }

  lemma {:induction false} EachInTwo(a: seq<Bytes>, b: seq<Bytes>, f: Bytes -> Option<Bytes>)
    ensures Each(a + b, f) == Each(a, f) + Each(b, f)
    decreases |a|
  {
    if a == [] {
      assert a + b == b;
    } else {
      EachInTwo(a[1..], b, f);
      assert a + b == [a[0]] + (a[1..] + b);
      EachFirst(a[0], a[1..] + b, f);
      Associate(Written(f(a[0])), Each(a[1..], f), Each(b, f));
    }
  }

  // ---------------------------------------------------------------------------
  // Upstream streams of one-line events
  // ---------------------------------------------------------------------------

  predicate OneLineEvents(es: seq<Bytes>) {
    forall i | 0 <= i < |es| :: OneLine(es[i])
  }

  /** The stream that carries the payloads `es`, each as a data line and a blank line. */
  function Stream(es: seq<Bytes>): Bytes {
    if es == [] then [] else DATA_PREFIX + es[0] + "\n" + ("\n" + Stream(es[1..]))
  }

  function EventLines(es: seq<Bytes>): seq<Bytes> {
    if es == [] then [] else [DATA_PREFIX + es[0] + "\n"] + (["\n"] + EventLines(es[1..]))
  }

  predicate Withheld(e: Bytes, dropUsage: bool) {
    dropUsage && HasUsage(TrimSpace(e))
  }

  /** The payloads a client should get: the upstream ones with the model name patched, without the
      usage events when those are withheld. */
  function Delivered(es: seq<Bytes>, entry: Entry, dropUsage: bool): seq<Bytes> {
    if es == [] then []
    else (if Withheld(es[0], dropUsage) then [] else [Patch(entry, es[0])]) + Delivered(es[1..], entry, dropUsage)
  }

  function Messages(ps: seq<Bytes>): seq<Message> {
    if ps == [] then [] else [Message("message", ps[0], [])] + Messages(ps[1..])
  }

  /** The frames written for the payloads `es`. */
  function EventFrames(es: seq<Bytes>, entry: Entry, dropUsage: bool): seq<Bytes> {
    if es == [] then []
    else
      (if Withheld(es[0], dropUsage) then [] else [DATA_PREFIX + Patch(entry, es[0]) + "\n"])
      + (["\n"] + EventFrames(es[1..], entry, dropUsage))
  }

  lemma LineFirst(l: Bytes, rest: Bytes)
    requires '\n' !in l
    ensures SplitLines(l + "\n" + rest) == [l + "\n"] + SplitLines(rest)
  {
    var s := l + "\n" + rest;
    NewlineOfConcat(l, "\n" + rest);
    assert l + ("\n" + rest) == s;
    assert Newline("\n" + rest) == Some(0);
    assert s[..|l| + 1] == l + "\n";
    assert s[|l| + 1..] == rest;
  }

  /** An event's data line and its blank line come first. */
  lemma EventFirst(line: Bytes, rest: Bytes)
    requires '\n' !in line
    ensures SplitLines(line + "\n" + ("\n" + rest)) == [line + "\n"] + (["\n"] + SplitLines(rest))
  {
    LineFirst(line, "\n" + rest);
    LineFirst([], rest);
    assert [] + "\n" + rest == "\n" + rest && [] + "\n" == "\n";
  }

  lemma {:induction false} StreamLines(es: seq<Bytes>)
    requires OneLineEvents(es)
    ensures SplitLines(Stream(es)) == EventLines(es)
    decreases |es|
  {
    if es != [] {
      var rest := Stream(es[1..]);
      StreamLines(es[1..]);
      assert '\n' !in DATA_PREFIX + es[0];
      EventFirst(DATA_PREFIX + es[0], rest);
    }
  }

  lemma {:induction false} TrimSpaceRightBytes(s: Bytes, c: char)
    ensures c in s ==> c in TrimSpaceRight(s) || IsSpace(c)
    decreases |s|
  {
    if |s| > 0 && IsSpace(s[|s| - 1]) {
      TrimSpaceRightBytes(s[..|s| - 1], c);
    }
  }

  lemma {:induction false} TrimSpaceBytes(s: Bytes, c: char)
    ensures c in s ==> c in TrimSpace(s) || IsSpace(c)
    decreases |s|
  {
    if |s| > 0 && IsSpace(s[0]) {
      TrimSpaceBytes(s[1..], c);
    } else {
      TrimSpaceRightBytes(s, c);
    }
  }

  /** The line of payload `e` is written patched, or withheld. */
  lemma ForwardData(e: Bytes, entry: Entry, dropUsage: bool)
    requires OneLine(e) && GoodNames(entry)
    ensures Forward(DATA_PREFIX + e + "\n", entry, dropUsage)
            == if Withheld(e, dropUsage) then None else Some(DATA_PREFIX + Patch(entry, e) + "\n")
  {
    DataLine(e);
    PatchInside(entry, DATA_PREFIX, e);
    if TrimSpace(e) == DONE {
      TrimSpaceBytes(e, '\"');
      PatchNeedsQuote(entry, e);
      assert !Contains(DONE, USAGE_KEY);
    }
  }

  lemma ForwardFirst(line: Bytes, rest: seq<Bytes>, entry: Entry, dropUsage: bool)
    ensures ForwardAll([line] + rest, entry, dropUsage)
            == Written(Forward(line, entry, dropUsage)) + ForwardAll(rest, entry, dropUsage)
  {
    EachFirst(line, rest, Forwarder(entry, dropUsage));
  }

  lemma ForwardBlank(entry: Entry, dropUsage: bool)
    ensures Forward("\n", entry, dropUsage) == Some("\n")
  {
    BlankLine();
  }

  lemma {:induction false} ForwardEvents(es: seq<Bytes>, entry: Entry, dropUsage: bool)
    requires OneLineEvents(es) && GoodNames(entry)
    ensures ForwardAll(EventLines(es), entry, dropUsage) == EventFrames(es, entry, dropUsage)
    decreases |es|
  {
    if es != [] {
      var rest := EventLines(es[1..]);
      ForwardEvents(es[1..], entry, dropUsage);
      ForwardFirst(DATA_PREFIX + es[0] + "\n", ["\n"] + rest, entry, dropUsage);
      ForwardFirst("\n", rest, entry, dropUsage);
      ForwardData(es[0], entry, dropUsage);
      ForwardBlank(entry, dropUsage);
    }
  }

  // ---------------------------------------------------------------------------
  // Interleaving with the keep-alive ticker
  // ---------------------------------------------------------------------------

  /** A comment line and a blank line. */
  function Comment(text: Bytes): Bytes {
    ":" + text + "\n" + "\n"
  }

  /** `w` is the frames `fs`, in order, with the write `ka` anywhere between them. */
  ghost predicate Interleaved(w: seq<Bytes>, fs: seq<Bytes>, ka: Bytes)
    decreases |w|
  {
    if w == [] then fs == []
    else
      || (w[0] == ka && Interleaved(w[1..], fs, ka))
      || (fs != [] && w[0] == fs[0] && Interleaved(w[1..], fs[1..], ka))
  }

  /** A client between two writes: at the start of a line, with no event type and no id set. */
  predicate AtRest(c: Client) {
    c.line == [] && !c.afterCR && c.kind == [] && c.lastId == [] && (c.data == [] || c.data[|c.data| - 1] == '\n')
  }

  /** The message a blank line would dispatch now. */
  function Pending(c: Client): seq<Message> {
    if c.data == [] then [] else [Message("message", c.data[..|c.data| - 1], [])]
  }

  lemma FeedCommentBlock(c: Client, text: Bytes)
    requires AtRest(c) && OneLine(text)
    ensures Feed(c, Comment(text)) == Dispatch(c)
  {
    FeedConcat(c, ":" + text + "\n", "\n");
    FeedComment(c, text);
    FeedBlank(c);
  }

  lemma DispatchAtRest(c: Client)
    requires AtRest(c)
    ensures Dispatch(c) == c.(messages := c.messages + Pending(c), data := [])
    ensures AtRest(Dispatch(c)) && Pending(Dispatch(c)) == []
  {
  }

  lemma FeedFirst(c: Client, w: seq<Bytes>)
    requires w != []
    ensures Feed(c, Concat(w)) == Feed(Feed(c, w[0]), Concat(w[1..]))
  {
    FeedConcat(c, w[0], Concat(w[1..]));
  }

  /** What the client should have dispatched in the end. */
  function Outcome(c: Client, es: seq<Bytes>, entry: Entry, dropUsage: bool): seq<Message> {
    c.messages + Pending(c) + Messages(Delivered(es, entry, dropUsage))
  }

  /** Writing the data line of the first payload moves it from still to come to pending. */
  lemma DataLineWritten(c: Client, es: seq<Bytes>, entry: Entry, dropUsage: bool)
    requires AtRest(c) && c.data == [] && es != [] && OneLineEvents(es) && GoodNames(entry) && !Withheld(es[0], dropUsage)
    ensures var c1 := Feed(c, DATA_PREFIX + Patch(entry, es[0]) + "\n");
            AtRest(c1) && Outcome(c1, es[1..], entry, dropUsage) == Outcome(c, es, entry, dropUsage)
  {
    var p := Patch(entry, es[0]);
    PatchStaysOneLine(entry, es[0]);
    FeedData(c, p);
    var c1 := c.(data := c.data + p + "\n");
    assert c1.data[..|c1.data| - 1] == p;
    var rest := Delivered(es[1..], entry, dropUsage);
    assert Messages([p] + rest) == Pending(c1) + Messages(rest) by { assert ([p] + rest)[1..] == rest; }
  }

  lemma BlankLineWritten(c: Client, es: seq<Bytes>, entry: Entry, dropUsage: bool)
    requires AtRest(c)
    ensures AtRest(Dispatch(c)) && Dispatch(c).data == []
    ensures Outcome(Dispatch(c), es, entry, dropUsage) == Outcome(c, es, entry, dropUsage)
  {
    DispatchAtRest(c);
  }

  function Ahead(mid: bool, fs: seq<Bytes>): seq<Bytes> {
    if mid then ["\n"] + fs else fs
  }

  /** The first frame still to write, and what follows it. */
  lemma FirstFrame(es: seq<Bytes>, entry: Entry, dropUsage: bool, fs: seq<Bytes>)
    requires fs == EventFrames(es, entry, dropUsage) && fs != []
    ensures es != []
    ensures Withheld(es[0], dropUsage) ==> fs[0] == "\n" && fs[1..] == EventFrames(es[1..], entry, dropUsage)
    ensures !Withheld(es[0], dropUsage) ==>
              && fs[0] == DATA_PREFIX + Patch(entry, es[0]) + "\n"
              && fs[1..] == Ahead(true, EventFrames(es[1..], entry, dropUsage))
  {
  }

  /** A withheld event leaves only its blank line. */
  lemma WithheldWritten(c: Client, es: seq<Bytes>, entry: Entry, dropUsage: bool)
    requires AtRest(c) && es != [] && Withheld(es[0], dropUsage)
    ensures AtRest(Dispatch(c)) && Dispatch(c).data == []
    ensures Outcome(Dispatch(c), es[1..], entry, dropUsage) == Outcome(c, es, entry, dropUsage)
  {
    BlankLineWritten(c, es[1..], entry, dropUsage);
    assert Delivered(es, entry, dropUsage) == Delivered(es[1..], entry, dropUsage);
  }

  lemma InterleavedSplits(w: seq<Bytes>, fs: seq<Bytes>, ka: Bytes)
    requires w != [] && Interleaved(w, fs, ka)
    ensures (w[0] == ka && Interleaved(w[1..], fs, ka))
         || (fs != [] && w[0] == fs[0] && Interleaved(w[1..], fs[1..], ka))
  {
  }

  /** Whatever the interleaving, the client dispatches what it has pending and then exactly the
      delivered payloads. `mid` says that a data line has been written and its blank line has not. */
  lemma {:induction false} Woven(c: Client, es: seq<Bytes>, mid: bool, fs: seq<Bytes>, w: seq<Bytes>,
                                 text: Bytes, ka: Bytes, entry: Entry, dropUsage: bool)
    requires OneLineEvents(es) && GoodNames(entry) && OneLine(text) && ka == Comment(text)
    requires AtRest(c) && (!mid ==> c.data == [])
    requires fs == Ahead(mid, EventFrames(es, entry, dropUsage)) && Interleaved(w, fs, ka)
    ensures Feed(c, Concat(w)).messages == Outcome(c, es, entry, dropUsage)
    decreases |w|, 1
  {
    if w != [] {
      FeedFirst(c, w);
      InterleavedSplits(w, fs, ka);
      if w[0] == ka && Interleaved(w[1..], fs, ka) {
        FeedCommentBlock(c, text);
        BlankLineWritten(c, es, entry, dropUsage);
        Woven(Dispatch(c), es, mid, fs, w[1..], text, ka, entry, dropUsage);
      } else {
        WovenFrame(c, es, mid, fs, w, text, ka, entry, dropUsage);
      }
    } else {
      assert es == [];
    }
  }

  lemma {:induction false} WovenFrame(c: Client, es: seq<Bytes>, mid: bool, fs: seq<Bytes>, w: seq<Bytes>,
                                      text: Bytes, ka: Bytes, entry: Entry, dropUsage: bool)
    requires OneLineEvents(es) && GoodNames(entry) && OneLine(text) && ka == Comment(text)
    requires AtRest(c) && (!mid ==> c.data == [])
    requires fs == Ahead(mid, EventFrames(es, entry, dropUsage))
    requires w != [] && fs != [] && w[0] == fs[0] && Interleaved(w[1..], fs[1..], ka)
    ensures Feed(Feed(c, w[0]), Concat(w[1..])).messages == Outcome(c, es, entry, dropUsage)
    decreases |w|, 0
  {
    if mid {
      FeedBlank(c);
      BlankLineWritten(c, es, entry, dropUsage);
      assert fs[1..] == EventFrames(es, entry, dropUsage);
      Woven(Dispatch(c), es, false, fs[1..], w[1..], text, ka, entry, dropUsage);
    } else {
      FirstFrame(es, entry, dropUsage, fs);
      if Withheld(es[0], dropUsage) {
        FeedBlank(c);
        WithheldWritten(c, es, entry, dropUsage);
        Woven(Dispatch(c), es[1..], false, fs[1..], w[1..], text, ka, entry, dropUsage);
      } else {
        DataLineWritten(c, es, entry, dropUsage);
        Woven(Feed(c, w[0]), es[1..], true, fs[1..], w[1..], text, ka, entry, dropUsage);
      }
    }
  }

  /** Transparency: for an upstream stream of one-line events and every interleaving of keep-alives,
      the client dispatches the upstream events, patched, without the usage events when withheld. */
  lemma RelayIsTransparent(es: seq<Bytes>, entry: Entry, dropUsage: bool, w: seq<Bytes>)
    requires OneLineEvents(es) && GoodNames(entry)
    requires Interleaved(w, ForwardAll(SplitLines(Stream(es)), entry, dropUsage), KEEPALIVE)
    ensures Feed(NewClient(), Concat(w)).messages == Messages(Delivered(es, entry, dropUsage))
  {
    StreamLines(es);
    ForwardEvents(es, entry, dropUsage);
    KeepAliveIsComment();
    WovenFromStart(es, w, " keepalive", entry, dropUsage);
  }

  lemma KeepAliveIsComment()
    ensures KEEPALIVE == Comment(" keepalive")
    ensures OneLine(" keepalive")
  {
  }

  lemma WovenFromStart(es: seq<Bytes>, w: seq<Bytes>, text: Bytes, entry: Entry, dropUsage: bool)
    requires OneLineEvents(es) && GoodNames(entry) && OneLine(text)
    requires Interleaved(w, EventFrames(es, entry, dropUsage), Comment(text))
    ensures Feed(NewClient(), Concat(w)).messages == Messages(Delivered(es, entry, dropUsage))
  {
    Woven(NewClient(), es, false, EventFrames(es, entry, dropUsage), w, text, Comment(text), entry, dropUsage);
  }

  // ---------------------------------------------------------------------------
  // The writer's sticky error
  // ---------------------------------------------------------------------------

  /** How one write to the socket ends: accepted, or broken after `sent` of its bytes. */
  datatype WriteResult = Accepted | Broken(sent: nat)

  /** What the client's connection has carried, and whether a write has failed. */
  datatype Connection = Connection(carried: Bytes, failed: bool)

  function Send(s: Connection, p: Bytes, r: WriteResult): Connection {
    if s.failed then s
    else match r
         case Accepted => Connection(s.carried + p, false)
         case Broken(n) => Connection(s.carried + p[..if n < |p| then n else |p|], true)
  }

  function SendAll(s: Connection, ws: seq<Bytes>, rs: seq<WriteResult>): Connection
    requires |ws| == |rs|
    decreases |ws|
  {
    if ws == [] then s else SendAll(Send(s, ws[0], rs[0]), ws[1..], rs[1..])
  }

  /** The connection carries a prefix of what was written, and all of it if no write failed. */
  lemma {:induction false} CarriesPrefix(s: Connection, ws: seq<Bytes>, rs: seq<WriteResult>)
    requires |ws| == |rs|
    ensures SendAll(s, ws, rs).carried <= s.carried + Concat(ws)
    ensures !SendAll(s, ws, rs).failed ==> SendAll(s, ws, rs).carried == s.carried + Concat(ws)
    ensures s.failed ==> SendAll(s, ws, rs) == s
    decreases |ws|
  {
    if ws != [] {
      CarriesPrefix(Send(s, ws[0], rs[0]), ws[1..], rs[1..]);
      assert s.carried + Concat(ws) == s.carried + ws[0] + Concat(ws[1..]);
    } else {
      assert s.carried + Concat(ws) == s.carried;
    }
  }

  /** The writes of a relay that stopped early extend to those of one that did not. */
  lemma {:induction false} InterleavedExtends(w: seq<Bytes>, fs: seq<Bytes>, rest: seq<Bytes>, ka: Bytes)
    requires Interleaved(w, fs, ka)
    ensures Interleaved(w + rest, fs + rest, ka)
    decreases |w|
  {
    if w == [] {
      assert w + rest == rest && fs + rest == rest;
      InterleavedSelf(rest, ka);
    } else {
      assert (w + rest)[1..] == w[1..] + rest;
      if w[0] == ka && Interleaved(w[1..], fs, ka) {
        InterleavedExtends(w[1..], fs, rest, ka);
      } else {
        InterleavedExtends(w[1..], fs[1..], rest, ka);
        assert (fs + rest)[1..] == fs[1..] + rest;
      }
    }
  }

  lemma {:induction false} InterleavedSelf(fs: seq<Bytes>, ka: Bytes)
    ensures Interleaved(fs, fs, ka)
    decreases |fs|
  {
    if fs != [] {
      InterleavedSelf(fs[1..], ka);
    }
  }

  lemma ConcatFirst(p: Bytes, rest: seq<Bytes>)
    ensures Concat([p] + rest) == p + Concat(rest)
  {
    assert ([p] + rest)[1..] == rest;
  }

  lemma {:induction false} ConcatAppend(a: seq<Bytes>, b: seq<Bytes>)
    ensures Concat(a + b) == Concat(a) + Concat(b)
    decreases |a|
  {
    if a == [] {
      assert a + b == b;
    } else {
      var p, rest := a[0], a[1..];
      ConcatAppend(rest, b);
      assert a == [p] + rest && a + b == [p] + (rest + b);
      ConcatFirst(p, rest);
      ConcatFirst(p, rest + b);
    }
  }

  /** What a connection carried of the first writes is a prefix of all of them. */
  lemma CarriedPrefix(w: seq<Bytes>, rest: seq<Bytes>, rs: seq<WriteResult>)
    requires |w| == |rs|
    ensures var s := SendAll(Connection([], false), w, rs);
            && s.carried <= Concat(w + rest)
            && (!s.failed && rest == [] ==> s.carried == Concat(w + rest))
  {
    CarriesPrefix(Connection([], false), w, rs);
    assert [] + Concat(w) == Concat(w);
    ConcatAppend(w, rest);
    if rest == [] { assert w + rest == w; }
  }

  lemma ExtendWrites(w: seq<Bytes>, fs: seq<Bytes>, k: nat, ka: Bytes)
    requires k <= |fs| && Interleaved(w, fs[..k], ka)
    ensures Interleaved(w + fs[k..], fs, ka)
  {
    InterleavedExtends(w, fs[..k], fs[k..], ka);
    assert fs[..k] + fs[k..] == fs;
  }

  /** When writes may fail: a client of a relay that wrote some of the frames, with keep-alives
      anywhere, has dispatched a prefix of the events, and all of them if every frame was written
      and none failed. */
  lemma BrokenRelayDeliversPrefix(es: seq<Bytes>, entry: Entry, dropUsage: bool, k: nat, w: seq<Bytes>, rs: seq<WriteResult>)
    requires OneLineEvents(es) && GoodNames(entry) && |w| == |rs|
    requires k <= |ForwardAll(SplitLines(Stream(es)), entry, dropUsage)|
    requires Interleaved(w, ForwardAll(SplitLines(Stream(es)), entry, dropUsage)[..k], KEEPALIVE)
    ensures var s := SendAll(Connection([], false), w, rs);
            && Feed(NewClient(), s.carried).messages <= Messages(Delivered(es, entry, dropUsage))
            && (!s.failed && k == |ForwardAll(SplitLines(Stream(es)), entry, dropUsage)| ==>
                  Feed(NewClient(), s.carried).messages == Messages(Delivered(es, entry, dropUsage)))
  {
    var fs := ForwardAll(SplitLines(Stream(es)), entry, dropUsage);
    ExtendWrites(w, fs, k, KEEPALIVE);
    RelayIsTransparent(es, entry, dropUsage, w + fs[k..]);
    CarriedPrefix(w, fs[k..], rs);
    PrefixSeesPrefix(NewClient(), SendAll(Connection([], false), w, rs).carried, Concat(w + fs[k..]));
  }
}
