/**
 What withholding usage frames costs, over documents: a frame is withheld for a key that looks like a
 usage report, whatever else the frame carries.
 */
module Withholding {
  import opened Options
  import opened Bytes
  import opened Frames
  import opened Catalog
  import opened SseClient
  import opened SseRelay
  import opened JsonText
  import opened JsonScan
  import Request = RequestRewrite

  // ---------------------------------------------------------------------------
  // Trimming hides nothing from a scan
  // ---------------------------------------------------------------------------

  predicate Edged(p: Bytes) {
    p != [] && !IsSpace(p[0]) && !IsSpace(p[|p| - 1])
  }

  lemma ContainsMeans(s: Bytes, p: Bytes)
    ensures Contains(s, p) <==> exists i: nat :: OccursAt(s, i, p)
  {
  }

  lemma DropFirstSpace(s: Bytes, p: Bytes)
    requires Edged(p) && s != [] && IsSpace(s[0])
    ensures Contains(s[1..], p) <==> Contains(s, p)
  {
    ContainsMeans(s, p);
    ContainsMeans(s[1..], p);
    if i: nat :| OccursAt(s, i, p) {
      OccursBytes(s, i, p);
      assert s[i + 0] == p[0];
      OccursBytes(s[1..], i - 1, p);
      assert OccursAt(s[1..], i - 1, p);
    }
    if i: nat :| OccursAt(s[1..], i, p) {
      OccursBytes(s[1..], i, p);
      OccursBytes(s, i + 1, p);
      assert OccursAt(s, i + 1, p);
    }
  }

  lemma DropLastSpace(s: Bytes, p: Bytes)
    requires Edged(p) && s != [] && IsSpace(s[|s| - 1])
    ensures Contains(s[..|s| - 1], p) <==> Contains(s, p)
  {
    var t := s[..|s| - 1];
    ContainsMeans(s, p);
    ContainsMeans(t, p);
    if i: nat :| OccursAt(s, i, p) {
      OccursBytes(s, i, p);
      assert s[i + (|p| - 1)] == p[|p| - 1];
      OccursBytes(t, i, p);
      assert OccursAt(t, i, p);
    }
    if i: nat :| OccursAt(t, i, p) {
      OccursBytes(t, i, p);
      OccursBytes(s, i, p);
      assert OccursAt(s, i, p);
    }
  }

  lemma {:induction false} TrimRightKeeps(s: Bytes, p: Bytes)
    requires Edged(p)
    ensures Contains(TrimSpaceRight(s), p) <==> Contains(s, p)
    decreases |s|
  {
    if |s| > 0 && IsSpace(s[|s| - 1]) {
      TrimRightKeeps(s[..|s| - 1], p);
      DropLastSpace(s, p);
    }
  }

  lemma {:induction false} TrimKeeps(s: Bytes, p: Bytes)
    requires Edged(p)
    ensures Contains(TrimSpace(s), p) <==> Contains(s, p)
    decreases |s|
  {
    if |s| > 0 && IsSpace(s[0]) {
      TrimKeeps(s[1..], p);
      DropFirstSpace(s, p);
    } else {
      TrimRightKeeps(s, p);
    }
  }

  // ---------------------------------------------------------------------------
  // Which chunks are withheld
  // ---------------------------------------------------------------------------

  /** A document and the way it is written. */
  datatype Chunk = Chunk(doc: Json, us: seq<Token>)

  function Payload(c: Chunk): Bytes { Text(c.us) }

  /** A document written on one line, with white space wherever it may stand. */
  ghost predicate Written(c: Chunk) {
    GoodJson(c.doc) && LaysOut(c.us, c.doc) && forall i | 0 <= i < |c.us| && c.us[i].Blank? :: OneLine(c.us[i].space)
  }

  /** A chunk is withheld exactly when usage frames are, some key of it spells usage with its colon
      directly after it, and no such colon is directly followed by null. */
  lemma WithheldMeans(c: Chunk, dropUsage: bool)
    requires GoodJson(c.doc) && LaysOut(c.us, c.doc)
    ensures Withheld(Payload(c), dropUsage) <==> dropUsage && Reports(c.us)
  {
    LayoutIsGood(c.us, c.doc);
    HasUsageMeans(c.us);
    assert Edged(USAGE_KEY) && Edged(USAGE_NULL);
    TrimKeeps(Text(c.us), USAGE_KEY);
    TrimKeeps(Text(c.us), USAGE_NULL);
  }

  lemma PayloadIsOneLine(c: Chunk)
    requires Written(c)
    ensures OneLine(Payload(c))
  {
    LayoutIsGood(c.us, c.doc);
    TextOneLine(c.us);
  }

  // ---------------------------------------------------------------------------
  // What the client of a stream of chunks gets
  // ---------------------------------------------------------------------------

  function Payloads(cs: seq<Chunk>): (es: seq<Bytes>)
    ensures |es| == |cs| && forall i | 0 <= i < |cs| :: es[i] == Payload(cs[i])
  {
    if cs == [] then [] else [Payload(cs[0])] + Payloads(cs[1..])
  }

  ghost function Kept(cs: seq<Chunk>, dropUsage: bool): seq<Chunk> {
    if cs == [] then []
    else (if dropUsage && Reports(cs[0].us) then [] else [cs[0]]) + Kept(cs[1..], dropUsage)
  }

  ghost predicate AllWritten(cs: seq<Chunk>) {
    forall i | 0 <= i < |cs| :: Written(cs[i])
  }

  lemma KeptFirst(c: Chunk, rest: seq<Chunk>, entry: Entry)
    ensures Request.PatchAll(Payloads([c] + rest), entry) == [Patch(entry, Payload(c))] + Request.PatchAll(Payloads(rest), entry)
  {
    assert ([c] + rest)[1..] == rest;
    var es := Payloads([c] + rest);
    assert es == [Payload(c)] + Payloads(rest) && es[1..] == Payloads(rest);
  }

  lemma {:induction false} DeliveredAreKept(cs: seq<Chunk>, entry: Entry, dropUsage: bool)
    requires AllWritten(cs)
    ensures Delivered(Payloads(cs), entry, dropUsage) == Request.PatchAll(Payloads(Kept(cs, dropUsage)), entry)
    decreases |cs|
  {
    if cs != [] {
      var rest := cs[1..];
      assert forall i | 0 <= i < |rest| :: rest[i] == cs[i + 1];
      DeliveredAreKept(rest, entry, dropUsage);
      WithheldMeans(cs[0], dropUsage);
      assert Payloads(cs)[1..] == Payloads(rest);
      if dropUsage && Reports(cs[0].us) {
        assert Kept(cs, dropUsage) == Kept(rest, dropUsage);
      } else {
        KeptFirst(cs[0], Kept(rest, dropUsage), entry);
      }
    }
  }

  /** Whatever the keep-alives, the client dispatches exactly the chunks that are kept, patched. */
  lemma ClientGetsKept(cs: seq<Chunk>, entry: Entry, dropUsage: bool, w: seq<Bytes>)
    requires AllWritten(cs) && GoodNames(entry)
    requires Interleaved(w, ForwardAll(SplitLines(Stream(Payloads(cs))), entry, dropUsage), KEEPALIVE)
    ensures Feed(NewClient(), Concat(w)).messages
            == Messages(Request.PatchAll(Payloads(Kept(cs, dropUsage)), entry))
  {
    forall i | 0 <= i < |cs| ensures OneLine(Payloads(cs)[i]) { PayloadIsOneLine(cs[i]); }
    RelayIsTransparent(Payloads(cs), entry, dropUsage, w);
    DeliveredAreKept(cs, entry, dropUsage);
  }

  // ---------------------------------------------------------------------------
  // When nothing but usage reports is lost
  // ---------------------------------------------------------------------------

  predicate IsChoices(m: Member) {
    Decode(m.key) == "choices"
  }

  /** An object with choices, all of them empty: it reports usage and carries nothing generated. */
  ghost predicate PureReport(j: Json) {
    && j.Obj?
    && (exists i :: 0 <= i < |j.members| && IsChoices(j.members[i]))
    && (forall i | 0 <= i < |j.members| && IsChoices(j.members[i]) :: j.members[i].value == Arr([]))
  }

  /** Every chunk that the client does not get is a pure usage report. */
  ghost predicate OnlyReportsLost(cs: seq<Chunk>, dropUsage: bool) {
    forall i | 0 <= i < |cs| && Withheld(Payload(cs[i]), dropUsage) :: PureReport(cs[i].doc)
  }

  /** Only pure usage reports are lost exactly when usage frames are not withheld at all, or every chunk
      with a key that spells usage, its colon directly after it, and no such colon directly followed by
      null, is a pure report. */
  lemma OnlyReportsLostIff(cs: seq<Chunk>, dropUsage: bool)
    requires AllWritten(cs)
    ensures OnlyReportsLost(cs, dropUsage)
       <==> !dropUsage || forall i | 0 <= i < |cs| && Reports(cs[i].us) :: PureReport(cs[i].doc)
  {
    forall i | 0 <= i < |cs|
      ensures Withheld(Payload(cs[i]), dropUsage) <==> dropUsage && Reports(cs[i].us)
    {
      WithheldMeans(cs[i], dropUsage);
    }
  }

  /** An upstream that reports usage on every event loses all of them. */
  lemma {:induction false} AllWithheld(es: seq<Bytes>, entry: Entry)
    requires forall i | 0 <= i < |es| :: HasUsage(TrimSpace(es[i]))
    ensures Delivered(es, entry, true) == []
    decreases |es|
  {
    if es != [] {
      assert forall i | 0 <= i < |es| - 1 :: es[1..][i] == es[i + 1];
      AllWithheld(es[1..], entry);
    }
  }

  // Chunks that carry text and are withheld

  /** The tokens of an object with a string member and a second member. */
  function TextAnd(key: seq<Unit>, text: seq<Unit>, second: seq<Unit>, value: seq<Token>): seq<Token> {
    [Punct('{')] + (([Quoted(key, true)] + ([Punct(':')] + [Quoted(text, false)]))
    + ([Punct(',')] + ([Quoted(second, true)] + ([Punct(':')] + value)))
    + [Punct('}')])
  }

  function TextAndDoc(key: seq<Unit>, text: seq<Unit>, second: seq<Unit>, value: Json): Json {
    Obj([Member(key, Str(text)), Member(second, value)])
  }

  lemma TextAndTokens(key: seq<Unit>, text: seq<Unit>, second: seq<Unit>, value: Json)
    requires GoodBody(key) && GoodBody(text) && GoodBody(second) && GoodJson(value)
    ensures var j := TextAndDoc(key, text, second, value);
            GoodJson(j) && Tokens(j) == TextAnd(key, text, second, Tokens(value)) && LaysOut(Tokens(j), j)
  {
    var j := TextAndDoc(key, text, second, value);
    var ms := j.members;
    CompactLaysOut(j);
    assert ms[1..] == [Member(second, value)];
    var rest := [Quoted(second, true)] + ([Punct(':')] + Tokens(value));
    assert MemberTokens(ms[1..]) == rest;
    assert Tokens(ms[0].value) == [Quoted(text, false)];
    var first := [Quoted(key, true)] + ([Punct(':')] + [Quoted(text, false)]);
    assert MemberTokens(ms) == first + ([Punct(',')] + rest);
  }

  /** Such an object is no pure report unless its second member is an empty array. */
  lemma NotPure(key: seq<Unit>, text: seq<Unit>, second: seq<Unit>, value: Json)
    requires value != Arr([])
    ensures !PureReport(TextAndDoc(key, text, second, value))
  {
    var ms := TextAndDoc(key, text, second, value).members;
    assert ms[0].value == Str(text) && ms[1].value == value;
  }

  function TextAndReport(key: seq<Unit>, text: seq<Unit>): Chunk {
    Chunk(TextAndDoc(key, text, PlainBody("usage"), Obj([])), TextAnd(key, text, PlainBody("usage"), [Punct('{'), Punct('}')]))
  }

  function TextAndSpacedNull(key: seq<Unit>, text: seq<Unit>): Chunk {
    Chunk(TextAndDoc(key, text, PlainBody("usage"), Literal("null")), TextAnd(key, text, PlainBody("usage"), [Blank(" "), Lit("null")]))
  }

  /** For every key and every text, a chunk with that text and a usage report is withheld, and it is no
      pure report. */
  lemma TextIsWithheld(key: seq<Unit>, text: seq<Unit>)
    requires GoodBody(key) && GoodBody(text)
    ensures var c := TextAndReport(key, text); Written(c) && Withheld(Payload(c), true) && !PureReport(c.doc)
  {
    PlainIsGood("usage");
    assert Tokens(Obj([])) == [Punct('{'), Punct('}')];
    TextAndTokens(key, text, PlainBody("usage"), Obj([]));
    TextAndReports(key, text, "usage");
    NoBlankTokens(key, text, PlainBody("usage"));
    NotPure(key, text, PlainBody("usage"), Obj([]));
    WithheldMeans(TextAndReport(key, text), true);
  }

  lemma NoBlankTokens(key: seq<Unit>, text: seq<Unit>, second: seq<Unit>)
    ensures NoBlanks(TextAnd(key, text, second, [Punct('{'), Punct('}')]))
  {
  }

  lemma TextAndReports(key: seq<Unit>, text: seq<Unit>, u: Bytes)
    ensures var us := TextAnd(key, text, PlainBody(u), [Punct('{'), Punct('}')]);
            HasTight(us, u) && !HasTightValue(us, u, Lit("null"))
  {
    var us := TextAnd(key, text, PlainBody(u), [Punct('{'), Punct('}')]);
    assert us[5] == Quoted(PlainBody(u), true) && us[6] == Punct(':') && |us| == 10;
    assert TightAt(us, 5, u);
    assert forall i | 0 <= i < |us| :: !us[i].Lit?;
  }

  /** Nor does a null save a chunk when a space stands before it: it reports no usage and is withheld. */
  lemma SpacedNullIsWithheld(key: seq<Unit>, text: seq<Unit>)
    requires GoodBody(key) && GoodBody(text)
    ensures var c := TextAndSpacedNull(key, text); Written(c) && Withheld(Payload(c), true) && !PureReport(c.doc)
  {
    PlainIsGood("usage");
    SpacedIsWritten(key, text, PlainBody("usage"));
    SpacedReports(key, text, "usage");
    NotPure(key, text, PlainBody("usage"), Literal("null"));
    WithheldMeans(TextAndSpacedNull(key, text), true);
  }

  lemma SpacedIsWritten(key: seq<Unit>, text: seq<Unit>, second: seq<Unit>)
    requires GoodBody(key) && GoodBody(text) && GoodBody(second)
    ensures Written(Chunk(TextAndDoc(key, text, second, Literal("null")), TextAnd(key, text, second, [Blank(" "), Lit("null")])))
  {
    assert Tokens(Literal("null")) == [Lit("null")];
    TextAndTokens(key, text, second, Literal("null"));
    SpacedLaysOut(key, text, second);
  }

  lemma StripFirst(t: Token, us: seq<Token>)
    ensures Strip([t] + us) == (if t.Blank? then [] else [t]) + Strip(us)
  {
    assert ([t] + us)[1..] == us;
  }

  lemma {:induction false} StripConcat(a: seq<Token>, b: seq<Token>)
    ensures Strip(a + b) == Strip(a) + Strip(b)
    decreases |a|
  {
    if a == [] {
      assert a + b == b;
    } else {
      StripConcat(a[1..], b);
      assert a + b == [a[0]] + (a[1..] + b);
      StripFirst(a[0], a[1..] + b);
    }
  }

  lemma SpacedLaysOut(key: seq<Unit>, text: seq<Unit>, second: seq<Unit>)
    ensures var us := TextAnd(key, text, second, [Blank(" "), Lit("null")]);
            Strip(us) == TextAnd(key, text, second, [Lit("null")])
    ensures var us := TextAnd(key, text, second, [Blank(" "), Lit("null")]);
            forall i | 0 <= i < |us| && us[i].Blank? :: us[i] == Blank(" ")
  {
    var us := TextAnd(key, text, second, [Blank(" "), Lit("null")]);
    var a, b := us[..7], us[8..];
    assert us == a + ([Blank(" ")] + b);
    BlankBetween(a, " ", b);
    assert a + b == TextAnd(key, text, second, [Lit("null")]);
  }

  lemma BlankBetween(a: seq<Token>, w: Bytes, b: seq<Token>)
    requires NoBlanks(a) && NoBlanks(b)
    ensures Strip(a + ([Blank(w)] + b)) == a + b
  {
    StripConcat(a, [Blank(w)] + b);
    StripFirst(Blank(w), b);
    StripIsSelf(a);
    StripIsSelf(b);
  }

  lemma SpacedReports(key: seq<Unit>, text: seq<Unit>, u: Bytes)
    ensures var us := TextAnd(key, text, PlainBody(u), [Blank(" "), Lit("null")]);
            HasTight(us, u) && !HasTightValue(us, u, Lit("null"))
  {
    var us := TextAnd(key, text, PlainBody(u), [Blank(" "), Lit("null")]);
    assert us[5] == Quoted(PlainBody(u), true) && us[6] == Punct(':') && |us| == 10;
    assert TightAt(us, 5, u);
    assert forall i | 0 <= i < |us| && us[i].Lit? :: i == 8;
    assert us[7].Blank?;
  }

  // ---------------------------------------------------------------------------
  // From the request
  // ---------------------------------------------------------------------------

  /** A streaming request that did not ask for usage has its frames withheld, and whatever other stream
      options it sets, such as usage on every chunk, are passed on. */
  lemma OtherOptionsAreKept(body: Request.Fields, head: Request.Head, upstreamModel: string, options: Request.Fields)
    requires Request.Peek(body) == Some(head) && head.stream && head.model != ""
    requires "stream_options" in body && body["stream_options"] == Request.Object(options)
    requires !Request.Asked(body)
    ensures var r := Request.Rewrite(body, head, upstreamModel);
            && r.Send? && r.injectedUsage
            && "stream_options" in r.body
            && r.body["stream_options"] == Request.Object(options["include_usage" := Request.Bool(true)])
  {
    Request.RewriteIsReference(body, head, upstreamModel);
  }
}
