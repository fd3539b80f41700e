/**
 A client's view of an event stream: the parsing and dispatch rules of section 9.2.6 of the WHATWG
 HTML Living Standard, "Interpreting an event stream", as a machine fed one byte at a time.
 */
module SseClient {
  import opened Options
  import opened Bytes

  datatype Message = Message(kind: Bytes, data: Bytes, lastId: Bytes)

  datatype Client = Client(
    messages: seq<Message>,  // dispatched so far
    data: Bytes,             // the data buffer
    kind: Bytes,             // the event type buffer
    lastId: Bytes,           // the last event ID buffer
    line: Bytes,             // the line being read
    afterCR: bool)           // the last byte was a carriage return, so a newline now is part of it

  function NewClient(): Client {
    Client([], [], [], [], [], false)
  }

  function Dispatch(c: Client): Client {
    if c.data == [] then c.(kind := [])
    else
      var data := if c.data[|c.data| - 1] == '\n' then c.data[..|c.data| - 1] else c.data;
      var kind := if c.kind == [] then "message" else c.kind;
      c.(messages := c.messages + [Message(kind, data, c.lastId)], data := [], kind := [])
  }

  function Field(c: Client, field: Bytes, value: Bytes): Client {
    if field == "event" then c.(kind := value)
    else if field == "data" then c.(data := c.data + value + "\n")
    else if field == "id" && 0 as char !in value then c.(lastId := value)
    else c
  }

  /** A complete line, without its terminator. */
  function EndLine(c: Client, line: Bytes): Client {
    if line == [] then Dispatch(c)
    else if line[0] == ':' then c
    else
      var colon := Find(line, ":", 0);
      if colon.None? then Field(c, line, [])
      else
        var value := line[colon.value + 1..];
        Field(c, line[..colon.value], if " " <= value then value[1..] else value)
  }

  function OnByte(c: Client, b: char): Client {
    if b == '\n' then
      if c.afterCR then c.(afterCR := false) else EndLine(c, c.line).(line := [])
    else if b == '\r' then EndLine(c, c.line).(line := [], afterCR := true)
    else c.(line := c.line + [b], afterCR := false)
  }

  function Feed(c: Client, s: Bytes): Client
    decreases |s|
  {
    if s == [] then c else Feed(OnByte(c, s[0]), s[1..])
  }

  lemma {:induction false} FeedConcat(c: Client, s: Bytes, t: Bytes)
    ensures Feed(c, s + t) == Feed(Feed(c, s), t)
    decreases |s|
  {
    if s == [] {
      assert s + t == t;
    } else {
      assert (s + t)[1..] == s[1..] + t;
      FeedConcat(OnByte(c, s[0]), s[1..], t);
    }
  }

  /** What has been dispatched is never taken back. */
  lemma {:induction false} MessagesGrow(c: Client, s: Bytes)
    ensures c.messages <= Feed(c, s).messages
    decreases |s|
  {
    if s != [] {
      MessagesGrow(OnByte(c, s[0]), s[1..]);
    }
  }

  /** A client that got less of a stream has dispatched a prefix of the messages. */
  lemma PrefixSeesPrefix(c: Client, s: Bytes, t: Bytes)
    requires s <= t
    ensures Feed(c, s).messages <= Feed(c, t).messages
  {
    assert t == s + t[|s|..];
    FeedConcat(c, s, t[|s|..]);
    MessagesGrow(Feed(c, s), t[|s|..]);
  }

  /** Text without line breaks accumulates in the line. */
  lemma {:induction false} FeedText(c: Client, s: Bytes)
    requires '\n' !in s && '\r' !in s && !c.afterCR
    ensures Feed(c, s) == c.(line := c.line + s)
    decreases |s|
  {
    if s == [] {
      assert c.line + s == c.line;
    } else {
      FeedText(OnByte(c, s[0]), s[1..]);
      assert c.line + [s[0]] + s[1..] == c.line + s;
    }
  }

  /** At the start of a line, a whole line is one `EndLine`. */
  lemma FeedLine(c: Client, s: Bytes)
    requires '\n' !in s && '\r' !in s && !c.afterCR && c.line == []
    ensures Feed(c, s + "\n") == EndLine(c, s)
  {
    FeedText(c, s);
    FeedConcat(c, s, "\n");
    var c1 := c.(line := s);
    assert c.line + s == s;
    assert "\n"[1..] == [];
    assert Feed(c1, "\n") == Feed(OnByte(c1, '\n'), []);
    EndLineKeepsLine(c, s);
  }

  lemma EndLineKeepsLine(c: Client, s: Bytes)
    ensures EndLine(c.(line := s), s).(line := c.line) == EndLine(c, s)
  {
  }

  lemma FeedBlank(c: Client)
    requires !c.afterCR && c.line == []
    ensures Feed(c, "\n") == Dispatch(c)
  {
    FeedLine(c, []);
    assert [] + "\n" == "\n";
  }

  /** Where a data line's colon is, and what stands on each side of it. */
  lemma DataField(s: Bytes, e: Bytes)
    requires s == "data: " + e
    ensures Find(s, ":", 0) == Some(4) && s[..4] == "data" && s[5..] == " " + e && s[5..][1..] == e
  {
    assert s[0] == 'd' && s[1] == 'a' && s[2] == 't' && s[3] == 'a' && s[4] == ':';
    forall i: nat | i < 4 ensures !OccursAt(s, i, ":") { OccursBytes(s, i, ":"); }
    FindIs(s, ":", 4);
  }

  lemma FeedData(c: Client, e: Bytes)
    requires '\n' !in e && '\r' !in e && !c.afterCR && c.line == []
    ensures Feed(c, "data: " + e + "\n") == c.(data := c.data + e + "\n")
  {
    var s := "data: " + e;
    FeedLine(c, s);
    DataField(s, e);
  }

  lemma FeedComment(c: Client, s: Bytes)
    requires '\n' !in s && '\r' !in s && !c.afterCR && c.line == []
    ensures Feed(c, ":" + s + "\n") == c
  {
    FeedLine(c, ":" + s);
  }
}
