/**
 What scanning response frames for bytes finds: in JSON text, however it is laid out, the patterns
 the relay looks for occur only where an object key ends with its colon directly after it, never
 inside a string value. The key is then the one looked for, or one that ends in an escaped quote and
 its letters.
 */
module JsonScan {
  import opened Options
  import opened Bytes
  import opened Frames
  import opened JsonText

  // ---------------------------------------------------------------------------
  // Where a pattern can match
  // ---------------------------------------------------------------------------

  /** A key the relay scans for: not empty, nothing to escape, and not starting like punctuation or
      white space. */
  predicate Word(k: Bytes) {
    NoQuotes(k) && k != [] && k[0] !in [':', ',', ']', '}'] && !IsBlank(k[0])
  }

  /** The body ends in an escaped quote and the letters of `k`. */
  predicate EndsIn(b: seq<Unit>, k: Bytes) {
    |b| > |k| && b[|b| - |k| - 1..] == [Escaped('\"')] + PlainBody(k)
  }

  /** What looks to a scan like the end of the key `k`. */
  predicate Spells(b: seq<Unit>, k: Bytes) {
    b == PlainBody(k) || EndsIn(b, k)
  }

  lemma TrapBody(b: seq<Unit>, k: Bytes) returns (x: Bytes)
    requires EndsIn(b, k)
    ensures BodyText(b) == x + ("\\\"" + k)
  {
    var n, e := |b| - |k| - 1, [Escaped('\"')];
    x := BodyText(b[..n]);
    assert b == b[..n] + (e + PlainBody(k));
    BodyConcat(b[..n], e + PlainBody(k));
    BodyConcat(e, PlainBody(k));
    PlainText(k);
    assert BodyText(e) == "\\\"" by { assert e[1..] == []; }
  }

  lemma QuotedSuffix(t: Bytes, x: Bytes, k: Bytes, s: Bytes)
    requires t == x + ("\\\"" + k) && s == "\"" + t + "\""
    ensures |s| >= |k| + 2 && s[|s| - |k| - 2..] == "\"" + k + "\""
  {
    var lead := "\"" + x + "\\";
    assert s == lead + ("\"" + k + "\"");
  }

  /** A literal that spells `k` ends in a quote, `k` and the closing quote. */
  lemma SpelledText(b: seq<Unit>, k: Bytes)
    requires Spells(b, k)
    ensures var s := "\"" + BodyText(b) + "\"";
            |s| >= |k| + 2 && s[|s| - |k| - 2..] == "\"" + k + "\""
  {
    if b == PlainBody(k) {
      PlainText(k);
    } else {
      var x := TrapBody(b, k);
      QuotedSuffix(BodyText(b), x, k, "\"" + BodyText(b) + "\"");
    }
  }

  /** The pattern for key `k` followed by `tail`. */
  function Pattern(k: Bytes, tail: Bytes): Bytes {
    "\"" + k + "\":" + tail
  }

  /** Text that spells `k` and a closing quote at the start of a string body is that whole body. */
  lemma {:induction false} BodyMatch(b: seq<Unit>, k: Bytes, r: Bytes)
    requires GoodBody(b) && NoQuotes(k) && k + "\"" <= BodyText(b) + "\"" + r
    ensures b == PlainBody(k)
    decreases |k|
  {
    var s := BodyText(b) + "\"" + r;
    assert s[0] == (k + "\"")[0];
    if b != [] && k != [] {
      assert b[0] == Plain(k[0]);
      assert s[1..] == BodyText(b[1..]) + "\"" + r;
      assert (k + "\"")[1..] == k[1..] + "\"";
      BodyMatch(b[1..], k[1..], r);
      assert b == [b[0]] + b[1..];
    }
  }

  /** A match that starts inside a string body starts at an escaped quote with only `k` after it, and
      a colon follows the string. */
  lemma {:induction false} MatchInBody(b: seq<Unit>, q: nat, k: Bytes, tail: Bytes, r: Bytes)
    requires GoodBody(b) && Word(k) && q < |BodyText(b)|
    requires Pattern(k, tail) <= (BodyText(b) + "\"" + r)[q..]
    ensures EndsIn(b, k) && ":" + tail <= r && q == |BodyText(b)| - |k| - 1
    decreases |b|
  {
    var s := BodyText(b) + "\"" + r;
    assert s[q] == s[q..][0] == '\"';
    var w := |BodyText(b)| - |BodyText(b[1..])|;
    if q >= w {
      assert s[q..] == (BodyText(b[1..]) + "\"" + r)[q - w..];
      MatchInBody(b[1..], q - w, k, tail, r);
      assert b[|b| - |k| - 1..] == b[1..][|b[1..]| - |k| - 1..];
    } else {
      assert b[0] == Escaped('\"') && q == 1;
      MatchAfterEscape(b, k, tail, r);
    }
  }

  lemma EscapeFirst(b: seq<Unit>, r: Bytes)
    requires b != [] && b[0] == Escaped('\"')
    ensures BodyText(b) == "\\\"" + BodyText(b[1..])
    ensures (BodyText(b) + "\"" + r)[1..] == "\"" + (BodyText(b[1..]) + "\"" + r)
  {
  }

  lemma MatchAfterEscape(b: seq<Unit>, k: Bytes, tail: Bytes, r: Bytes)
    requires GoodBody(b) && Word(k) && b != [] && b[0] == Escaped('\"')
    requires Pattern(k, tail) <= (BodyText(b) + "\"" + r)[1..]
    ensures EndsIn(b, k) && ":" + tail <= r && |BodyText(b)| == |k| + 2
  {
    EscapeFirst(b, r);
    OpeningBody(b[1..], r, k, tail);
    PlainText(k);
    PlainLength(k);
    assert b == [b[0]] + b[1..];
  }

  /** What the text after a string can begin with. */
  predicate AfterString(r: Bytes) {
    r == [] || r[0] in [':', ',', ']', '}'] || IsBlank(r[0])
  }

  /** A string is followed by nothing, punctuation or white space, and by a colon only as a key. */
  lemma StringFollowed(ts: seq<Token>)
    requires GoodTokens(ts) && ts != [] && ts[0].Quoted?
    ensures AfterString(Text(ts[1..]))
    ensures Text(ts[1..]) != [] && Text(ts[1..])[0] == ':' ==> ts[0].isKey && |ts| > 1 && ts[1] == Punct(':')
  {
    assert MayFollow(ts[0], At(ts, 1));
    if |ts| > 1 {
      assert GoodToken(ts[1]) && ts[1..][0] == ts[1];
    }
  }

  /** The string at `i` is a key that spells `k`, and what follows its colon begins with `tail`. */
  ghost predicate KeyAt(ts: seq<Token>, i: nat, k: Bytes, tail: Bytes) {
    && i + 2 < |ts| && IsKey(ts[i]) && Spells(ts[i].body, k)
    && ts[i + 1] == Punct(':') && tail <= Text(ts[i + 2..])
  }

  function Offset(ts: seq<Token>, i: nat): nat
    requires i <= |ts|
  {
    |Text(ts[..i])|
  }

  /** The pattern at the start of a string literal spells the whole literal. */
  lemma OpeningBody(b: seq<Unit>, r: Bytes, k: Bytes, tail: Bytes)
    requires GoodBody(b) && Word(k) && Pattern(k, tail) <= "\"" + (BodyText(b) + "\"" + r)
    ensures b == PlainBody(k) && ":" + tail <= r
  {
    assert Pattern(k, tail) == "\"" + (k + "\"" + (":" + tail));
    DropPrefix("\"", k + "\"" + (":" + tail), BodyText(b) + "\"" + r);
    assert k + "\"" <= k + "\"" + (":" + tail);
    BodyMatch(b, k, r);
    PlainText(k);
    DropPrefix(k + "\"", ":" + tail, r);
  }

  /** A pattern's tail is what follows the key's colon. */
  lemma AfterColon(ts: seq<Token>, tail: Bytes)
    requires GoodTokens(ts) && ts != [] && ts[0].Quoted? && ":" + tail <= Text(ts[1..])
    ensures ts[0].isKey && |ts| > 2 && ts[1] == Punct(':') && tail <= Text(ts[2..])
  {
    var r := Text(ts[1..]);
    assert r[0] == ':';
    StringFollowed(ts);
    assert MayFollow(ts[1], At(ts, 2));
    assert ts[1..][0] == ts[1] && ts[1..][1..] == ts[2..];
    assert r == ":" + Text(ts[2..]);
    DropPrefix(":", tail, Text(ts[2..]));
  }

  lemma OpeningMatch(ts: seq<Token>, k: Bytes, tail: Bytes)
    requires GoodTokens(ts) && Word(k) && ts != [] && ts[0].Quoted? && Pattern(k, tail) <= Text(ts)
    ensures KeyAt(ts, 0, k, tail) && |TokenText(ts[0])| == |k| + 2
  {
    assert GoodToken(ts[0]);
    QuotedFirst(ts);
    OpeningBody(ts[0].body, Text(ts[1..]), k, tail);
    AfterColon(ts, tail);
    PlainText(k);
  }

  /** A match at the closing quote of a string would need the key's first letter to be punctuation or
      white space. */
  lemma NoMatchAtClose(r: Bytes, k: Bytes, tail: Bytes)
    requires Word(k) && AfterString(r)
    ensures !(Pattern(k, tail) <= "\"" + r)
  {
    assert Pattern(k, tail)[1] == k[0];
    assert r != [] ==> ("\"" + r)[1] == r[0];
  }

  /** A match past a string's opening quote is at its last, escaped quote. */
  lemma LateMatch(b: seq<Unit>, r: Bytes, q: nat, k: Bytes, tail: Bytes)
    requires GoodBody(b) && Word(k) && q <= |BodyText(b)|
    requires AfterString(r)
    requires Pattern(k, tail) <= (BodyText(b) + "\"" + r)[q..]
    ensures EndsIn(b, k) && ":" + tail <= r && q == |BodyText(b)| - |k| - 1
  {
    assert (BodyText(b) + "\"" + r)[|BodyText(b)|..] == "\"" + r;
    NoMatchAtClose(r, k, tail);
    MatchInBody(b, q, k, tail, r);
  }

  lemma QuotedFirst(ts: seq<Token>)
    requires ts != [] && ts[0].Quoted?
    ensures Text(ts) == "\"" + (BodyText(ts[0].body) + "\"" + Text(ts[1..]))
  {
  }

  /** Only a string token has a quote in its text. */
  lemma QuoteInToken(ts: seq<Token>, pos: nat)
    requires ts != [] && GoodToken(ts[0]) && pos < |TokenText(ts[0])| && Text(ts)[pos] == '\"'
    ensures ts[0].Quoted?
  {
    assert TokenText(ts[0])[pos] == '\"';
  }

  lemma FirstTokenMatch(ts: seq<Token>, pos: nat, k: Bytes, tail: Bytes)
    requires GoodTokens(ts) && Word(k) && ts != [] && pos < |TokenText(ts[0])|
    requires Pattern(k, tail) <= Text(ts)[pos..]
    ensures KeyAt(ts, 0, k, tail) && pos == |TokenText(ts[0])| - |k| - 2
  {
    assert Text(ts)[pos] == Text(ts)[pos..][0] == '\"';
    QuoteInToken(ts, pos);
    if pos > 0 {
      LaterInFirstToken(ts, pos, k, tail);
    } else {
      assert Text(ts)[0..] == Text(ts);
      OpeningMatch(ts, k, tail);
    }
  }

  lemma SkipOne(s: Bytes, x: Bytes, pos: nat)
    requires s == "\"" + x && 0 < pos <= |s|
    ensures s[pos..] == x[pos - 1..]
  {
  }

  lemma LaterInFirstToken(ts: seq<Token>, pos: nat, k: Bytes, tail: Bytes)
    requires GoodTokens(ts) && Word(k) && ts != [] && ts[0].Quoted? && 0 < pos < |TokenText(ts[0])|
    requires Pattern(k, tail) <= Text(ts)[pos..]
    ensures KeyAt(ts, 0, k, tail) && pos == |TokenText(ts[0])| - |k| - 2
  {
    var b, r := ts[0].body, Text(ts[1..]);
    assert GoodToken(ts[0]);
    QuotedFirst(ts);
    StringFollowed(ts);
    SkipOne(Text(ts), BodyText(b) + "\"" + r, pos);
    LateMatch(b, r, pos - 1, k, tail);
    AfterColon(ts, tail);
  }

  lemma DropPrefix(p: Bytes, a: Bytes, b: Bytes)
    requires p + a <= p + b
    ensures a <= b
  {
    assert (p + a)[|p|..] == a && (p + b)[|p|..] == b;
  }

  /** Where the pattern matches at a key that spells `k`: at the quote before its last letters. */
  function MatchPos(ts: seq<Token>, i: nat, k: Bytes): int
    requires i < |ts|
  {
    Offset(ts, i) + |TokenText(ts[i])| - |k| - 2
  }

  /** A byte position where the pattern matches is that of a key that spells `k`. */
  lemma {:induction false} MatchIsKey(ts: seq<Token>, pos: nat, k: Bytes, tail: Bytes) returns (i: nat)
    requires GoodTokens(ts) && Word(k) && pos <= |Text(ts)| && Pattern(k, tail) <= Text(ts)[pos..]
    ensures i < |ts| && KeyAt(ts, i, k, tail) && pos == MatchPos(ts, i, k)
    decreases |ts|
  {
    var w := |TokenText(ts[0])|;
    if pos < w {
      FirstTokenMatch(ts, pos, k, tail);
      i := 0;
      assert ts[..0] == [];
    } else {
      assert Text(ts)[pos..] == Text(ts[1..])[pos - w..];
      GoodTail(ts);
      var j := MatchIsKey(ts[1..], pos - w, k, tail);
      i := j + 1;
      assert ts[1..][j + 2..] == ts[i + 2..];
      OffsetShifts(ts, i);
    }
  }

  lemma PatternFollows(t: Bytes, p: nat, k: Bytes, rest: Bytes, tail: Bytes)
    requires p <= |t| && t[p..] == "\"" + k + "\"" && tail <= rest
    ensures Pattern(k, tail) <= (t + (":" + rest))[p..]
  {
    assert (t + (":" + rest))[p..] == t[p..] + (":" + rest);
    assert "\"" + k + "\"" + (":" + rest) == Pattern(k, tail) + rest[|tail|..];
  }

  lemma ColonFollows(ts: seq<Token>)
    requires |ts| > 1 && ts[1] == Punct(':')
    ensures Text(ts) == TokenText(ts[0]) + (":" + Text(ts[2..]))
  {
    assert ts[1..][1..] == ts[2..];
  }

  lemma FirstMatches(ts: seq<Token>, p: nat, k: Bytes, tail: Bytes)
    requires |ts| > 1 && ts[1] == Punct(':') && tail <= Text(ts[2..])
    requires p <= |TokenText(ts[0])| && TokenText(ts[0])[p..] == "\"" + k + "\""
    ensures p <= |Text(ts)| && Pattern(k, tail) <= Text(ts)[p..]
  {
    ColonFollows(ts);
    PatternFollows(TokenText(ts[0]), p, k, Text(ts[2..]), tail);
  }

  lemma KeyComesFirst(ts: seq<Token>, k: Bytes, tail: Bytes)
    requires KeyAt(ts, 0, k, tail)
    ensures var p := |TokenText(ts[0])| - |k| - 2;
            0 <= p <= |Text(ts)| && Pattern(k, tail) <= Text(ts)[p..]
  {
    SpelledText(ts[0].body, k);
    FirstMatches(ts, |TokenText(ts[0])| - |k| - 2, k, tail);
  }

  lemma OffsetShifts(ts: seq<Token>, i: nat)
    requires 0 < i <= |ts|
    ensures Offset(ts, i) == |TokenText(ts[0])| + Offset(ts[1..], i - 1)
  {
    assert ts[..i][0] == ts[0] && ts[..i][1..] == ts[1..][..i - 1];
  }

  predicate MatchesAt(s: Bytes, p: int, k: Bytes, tail: Bytes) {
    0 <= p <= |s| && Pattern(k, tail) <= s[p..]
  }

  lemma FirstSkipped(ts: seq<Token>, o: int)
    requires ts != [] && 0 <= o <= |Text(ts[1..])|
    ensures |TokenText(ts[0])| + o <= |Text(ts)|
    ensures Text(ts)[|TokenText(ts[0])| + o..] == Text(ts[1..])[o..]
  {
  }

  lemma KeyShifts(ts: seq<Token>, i: nat, k: Bytes, tail: Bytes)
    requires i > 0 && KeyAt(ts, i, k, tail)
    ensures KeyAt(ts[1..], i - 1, k, tail)
  {
    assert ts[1..][i - 1 + 2..] == ts[i + 2..];
  }

  lemma SkippedMatch(ts: seq<Token>, o: int, p: int, k: Bytes, tail: Bytes)
    requires ts != [] && MatchesAt(Text(ts[1..]), o, k, tail) && p == |TokenText(ts[0])| + o
    ensures MatchesAt(Text(ts), p, k, tail)
  {
    FirstSkipped(ts, o);
  }

  lemma PosShifts(ts: seq<Token>, i: nat, k: Bytes)
    requires 0 < i < |ts|
    ensures MatchPos(ts, i, k) == |TokenText(ts[0])| + MatchPos(ts[1..], i - 1, k)
  {
    OffsetShifts(ts, i);
    assert ts[1..][i - 1] == ts[i];
  }

  /** Conversely a key that spells `k` is where its pattern matches. */
  lemma {:induction false} KeyIsMatch(ts: seq<Token>, i: nat, k: Bytes, tail: Bytes)
    requires KeyAt(ts, i, k, tail)
    ensures MatchesAt(Text(ts), MatchPos(ts, i, k), k, tail)
    decreases |ts|
  {
    if i == 0 {
      assert ts[..0] == [];
      KeyComesFirst(ts, k, tail);
    } else {
      KeyShifts(ts, i, k, tail);
      KeyIsMatch(ts[1..], i - 1, k, tail);
      PosShifts(ts, i, k);
      SkippedMatch(ts, MatchPos(ts[1..], i - 1, k), MatchPos(ts, i, k), k, tail);
    }
  }

  lemma KeyOccurs(ts: seq<Token>, i: nat, k: Bytes, tail: Bytes)
    requires KeyAt(ts, i, k, tail)
    ensures MatchPos(ts, i, k) >= 0 && OccursAt(Text(ts), MatchPos(ts, i, k), Pattern(k, tail))
  {
    KeyIsMatch(ts, i, k, tail);
    var s, o, n := Text(ts), MatchPos(ts, i, k), |Pattern(k, tail)|;
    assert s[o..][..n] == s[o..o + n];
  }

  lemma OccurrenceIsKey(ts: seq<Token>, pos: nat, k: Bytes, tail: Bytes) returns (i: nat)
    requires GoodTokens(ts) && Word(k) && OccursAt(Text(ts), pos, Pattern(k, tail))
    ensures i < |ts| && KeyAt(ts, i, k, tail) && pos == MatchPos(ts, i, k)
  {
    var s, n := Text(ts), |Pattern(k, tail)|;
    assert s[pos..][..n] == s[pos..pos + n];
    i := MatchIsKey(ts, pos, k, tail);
  }

  /** The pattern for a key, followed by `tail`, occurs in a text exactly when some object has a key that
      spells it, its colon directly after it, and text beginning with `tail` directly after that. */
  lemma ScanFindsMember(us: seq<Token>, k: Bytes, tail: Bytes)
    requires GoodTokens(us) && Word(k)
    ensures Contains(Text(us), Pattern(k, tail)) <==> exists i: nat :: KeyAt(us, i, k, tail)
  {
    if Contains(Text(us), Pattern(k, tail)) {
      var i := OccurrenceIsKey(us, Find(Text(us), Pattern(k, tail), 0).value, k, tail);
    }
    if i: nat :| KeyAt(us, i, k, tail) {
      KeyOccurs(us, i, k, tail);
    }
  }

  // ---------------------------------------------------------------------------
  // The scans the relay makes
  // ---------------------------------------------------------------------------

  /** A key that spells `k` at `i`, with its colon directly after it. */
  predicate TightAt(us: seq<Token>, i: nat, k: Bytes) {
    i + 2 < |us| && IsKey(us[i]) && Spells(us[i].body, k) && us[i + 1] == Punct(':')
  }

  ghost predicate HasTight(us: seq<Token>, k: Bytes) {
    exists i: nat :: TightAt(us, i, k)
  }

  /** Directly after such a colon stands the token `v`. */
  ghost predicate HasTightValue(us: seq<Token>, k: Bytes, v: Token) {
    exists i: nat :: TightAt(us, i, k) && us[i + 2] == v
  }

  lemma KeyScan(us: seq<Token>, k: Bytes)
    requires GoodTokens(us) && Word(k)
    ensures Contains(Text(us), Pattern(k, [])) <==> HasTight(us, k)
  {
    ScanFindsMember(us, k, []);
    if i: nat :| KeyAt(us, i, k, []) { assert TightAt(us, i, k); }
    if i: nat :| TightAt(us, i, k) { assert KeyAt(us, i, k, []); }
  }

  lemma ValueBegins(us: seq<Token>, i: nat, v: Token)
    requires i < |us| && us[i] == v
    ensures TokenText(v) <= Text(us[i..])
  {
    assert us[i..][0] == v;
  }

  lemma NullTail(ts: seq<Token>)
    requires GoodTokens(ts) && ts != [] && "null" <= Text(ts)
    ensures ts[0] == Lit("null")
  {
    assert Text(ts)[0] == 'n';
    assert GoodToken(ts[0]);
  }

  lemma NullScan(us: seq<Token>, k: Bytes)
    requires GoodTokens(us) && Word(k)
    ensures Contains(Text(us), Pattern(k, "null")) <==> HasTightValue(us, k, Lit("null"))
  {
    ScanFindsMember(us, k, "null");
    if i: nat :| KeyAt(us, i, k, "null") {
      GoodDrop(us, i + 2);
      NullTail(us[i + 2..]);
      assert TightAt(us, i, k) && us[i + 2] == Lit("null");
    }
    if i: nat :| TightAt(us, i, k) && us[i + 2] == Lit("null") {
      ValueBegins(us, i + 2, Lit("null"));
      assert KeyAt(us, i, k, "null");
    }
  }

  /** Some key spells usage with its colon directly after it, and no such colon is directly followed by
      null. */
  ghost predicate Reports(us: seq<Token>) {
    HasTight(us, "usage") && !HasTightValue(us, "usage", Lit("null"))
  }

  /** A frame counts as a usage frame exactly when it reports so; what string values contain has no
      say. */
  lemma HasUsageMeans(us: seq<Token>)
    requires GoodTokens(us)
    ensures HasUsage(Text(us)) <==> Reports(us)
  {
    assert USAGE_KEY == Pattern("usage", []) && USAGE_NULL == Pattern("usage", "null");
    KeyScan(us, "usage");
    NullScan(us, "usage");
  }

  /** Where the needle's pattern matches, the value is the whole name. */
  lemma NeedleTail(ts: seq<Token>, name: Bytes)
    requires GoodTokens(ts) && NoQuotes(name) && ts != [] && "\"" + name + "\"" <= Text(ts)
    ensures ts[0].Quoted? && ts[0].body == PlainBody(name)
  {
    assert Text(ts)[0] == '\"';
    assert GoodToken(ts[0]);
    QuotedFirst(ts);
    var rest := BodyText(ts[0].body) + "\"" + Text(ts[1..]);
    assert "\"" + name + "\"" == "\"" + (name + "\"");
    DropPrefix("\"", name + "\"", rest);
    BodyMatch(ts[0].body, name, Text(ts[1..]));
  }

  lemma StringBegins(ts: seq<Token>, name: Bytes)
    requires ts != [] && ts[0].Quoted? && ts[0].body == PlainBody(name)
    ensures "\"" + name + "\"" <= Text(ts)
  {
    PlainText(name);
  }

  lemma StringTail(ts: seq<Token>)
    requires GoodTokens(ts) && ts != []
    ensures "\"" <= Text(ts) <==> ts[0].Quoted?
  {
    assert GoodToken(ts[0]);
    if "\"" <= Text(ts) { QuoteInToken(ts, 0); }
  }

  lemma EmptyTail(ts: seq<Token>)
    requires GoodTokens(ts) && ts != []
    ensures "\"\"" <= Text(ts) <==> ts[0].Quoted? && ts[0].body == []
  {
    assert "\"" + [] + "\"" == "\"\"" && PlainBody([]) == [];
    if "\"\"" <= Text(ts) { NeedleTail(ts, []); }
    if ts[0].Quoted? && ts[0].body == [] { StringBegins(ts, []); }
  }

  /** Directly after the colon of a key that spells `k` stands a string, and never an empty one. */
  ghost predicate HasText(us: seq<Token>, k: Bytes) {
    && (exists i: nat :: TightAt(us, i, k) && us[i + 2].Quoted?)
    && !(exists i: nat :: TightAt(us, i, k) && us[i + 2].Quoted? && us[i + 2].body == [])
  }

  lemma StringScan(us: seq<Token>, k: Bytes)
    requires GoodTokens(us) && Word(k)
    ensures Contains(Text(us), Pattern(k, "\"")) <==> exists i: nat :: TightAt(us, i, k) && us[i + 2].Quoted?
  {
    ScanFindsMember(us, k, "\"");
    if i: nat :| KeyAt(us, i, k, "\"") {
      GoodDrop(us, i + 2);
      StringTail(us[i + 2..]);
      assert TightAt(us, i, k) && us[i + 2].Quoted?;
    }
    if i: nat :| TightAt(us, i, k) && us[i + 2].Quoted? {
      ValueBegins(us, i + 2, us[i + 2]);
      assert KeyAt(us, i, k, "\"");
    }
  }

  lemma EmptyScan(us: seq<Token>, k: Bytes)
    requires GoodTokens(us) && Word(k)
    ensures Contains(Text(us), Pattern(k, "\"\"")) <==>
            exists i: nat :: TightAt(us, i, k) && us[i + 2].Quoted? && us[i + 2].body == []
  {
    ScanFindsMember(us, k, "\"\"");
    if i: nat :| KeyAt(us, i, k, "\"\"") {
      GoodDrop(us, i + 2);
      EmptyTail(us[i + 2..]);
      assert TightAt(us, i, k) && us[i + 2].Quoted? && us[i + 2].body == [];
    }
    if i: nat :| TightAt(us, i, k) && us[i + 2].Quoted? && us[i + 2].body == [] {
      ValueBegins(us, i + 2, us[i + 2]);
      assert KeyAt(us, i, k, "\"\"");
    }
  }

  lemma TextScan(us: seq<Token>, k: Bytes)
    requires GoodTokens(us) && Word(k)
    ensures Contains(Text(us), Pattern(k, "\"")) && !Contains(Text(us), Pattern(k, "\"\"")) <==> HasText(us, k)
  {
    StringScan(us, k);
    EmptyScan(us, k);
  }

  lemma ContentScan(us: seq<Token>)
    requires GoodTokens(us)
    ensures Contains(Text(us), CONTENT) && !Contains(Text(us), CONTENT_EMPTY) <==> HasText(us, "content")
  {
    assert CONTENT == Pattern("content", "\"") && CONTENT_EMPTY == Pattern("content", "\"\"");
    TextScan(us, "content");
  }

  lemma ReasoningScan(us: seq<Token>)
    requires GoodTokens(us)
    ensures Contains(Text(us), REASONING) && !Contains(Text(us), REASONING_EMPTY) <==> HasText(us, "reasoning_content")
  {
    assert REASONING == Pattern("reasoning_content", "\"") && REASONING_EMPTY == Pattern("reasoning_content", "\"\"");
    TextScan(us, "reasoning_content");
  }

  lemma ToolCallScan(us: seq<Token>)
    requires GoodTokens(us)
    ensures Contains(Text(us), TOOL_CALLS) <==> HasTight(us, "tool_calls")
  {
    assert TOOL_CALLS == Pattern("tool_calls", []);
    KeyScan(us, "tool_calls");
  }

  /** A frame counts as carrying a token exactly when it has text under content or
      reasoning_content, or a key that spells tool_calls, with nothing between key, colon and value. */
  lemma CarriesTokenMeans(us: seq<Token>)
    requires GoodTokens(us)
    ensures CarriesToken(Text(us)) <==>
            HasText(us, "content") || HasText(us, "reasoning_content") || HasTight(us, "tool_calls")
  {
    ContentScan(us);
    ReasoningScan(us);
    ToolCallScan(us);
  }

  // ---------------------------------------------------------------------------
  // When a scan for a key is right
  // ---------------------------------------------------------------------------

  /** Some object of the document has a key that stands for `k`. */
  ghost predicate HasKey(j: Json, k: Bytes) {
    exists b :: b in Keys(j) && Decode(b) == k
  }

  /** The key `k` is written with its own letters and its colon directly after it. */
  ghost predicate HasPlainKey(us: seq<Token>, k: Bytes) {
    exists i: nat :: TightAt(us, i, k) && us[i].body == PlainBody(k)
  }

  /** A key with its colon directly after it ends in an escaped quote and the letters of `k`. */
  ghost predicate HasTrap(us: seq<Token>, k: Bytes) {
    exists i: nat :: TightAt(us, i, k) && EndsIn(us[i].body, k)
  }

  lemma TightIsPlainOrTrap(us: seq<Token>, k: Bytes)
    ensures HasTight(us, k) <==> HasPlainKey(us, k) || HasTrap(us, k)
  {
    if i: nat :| TightAt(us, i, k) {
      if us[i].body == PlainBody(k) {
        assert HasPlainKey(us, k);
      } else {
        assert TightAt(us, i, k) && EndsIn(us[i].body, k);
      }
    }
  }

  lemma PlainKeyIsKey(us: seq<Token>, j: Json, k: Bytes)
    requires LaysOut(us, j) && HasPlainKey(us, k)
    ensures HasKey(j, k)
  {
    var i: nat :| TightAt(us, i, k) && us[i].body == PlainBody(k);
    LayoutHoldsKeys(us, j);
    KeyBodyAt(us, PlainBody(k));
    PlainDecodes(k);
  }

  /** The scan for `k` tells whether some object has a key that stands for `k` exactly when that key is
      written plainly with its colon directly after it, or there is a look-alike with its colon directly
      after it just when there is such a key. */
  lemma ScanIsRightIff(us: seq<Token>, j: Json, k: Bytes)
    requires GoodJson(j) && LaysOut(us, j) && Word(k)
    ensures (Contains(Text(us), Pattern(k, [])) <==> HasKey(j, k))
       <==> HasPlainKey(us, k) || (HasTrap(us, k) <==> HasKey(j, k))
  {
    LayoutIsGood(us, j);
    KeyScan(us, k);
    TightIsPlainOrTrap(us, k);
    if HasPlainKey(us, k) { PlainKeyIsKey(us, j, k); }
  }

  /** An object with one member, and its tokens. */
  function OneMember(key: seq<Unit>, v: Json): Json { Obj([Member(key, v)]) }

  function Compact(key: seq<Unit>, v: seq<Token>): seq<Token> {
    [Punct('{')] + (([Quoted(key, true)] + ([Punct(':')] + v)) + [Punct('}')])
  }

  lemma {:induction false} StripIsSelf(ts: seq<Token>)
    requires NoBlanks(ts)
    ensures Strip(ts) == ts
    decreases |ts|
  {
    if ts != [] {
      assert NoBlanks(ts[1..]) by { assert forall i | 0 <= i < |ts[1..]| :: ts[1..][i] == ts[i + 1]; }
      StripIsSelf(ts[1..]);
    }
  }

  lemma CompactLaysOut(j: Json)
    requires GoodJson(j)
    ensures LaysOut(Tokens(j), j)
  {
    TokensAreGood(j);
    StripIsSelf(Tokens(j));
  }

  lemma OneMemberTokens(key: seq<Unit>, v: Json)
    requires GoodBody(key) && GoodJson(v)
    ensures GoodJson(OneMember(key, v)) && Tokens(OneMember(key, v)) == Compact(key, Tokens(v))
    ensures LaysOut(Compact(key, Tokens(v)), OneMember(key, v))
    ensures Keys(OneMember(key, v)) == {key} + Keys(v)
  {
    CompactLaysOut(OneMember(key, v));
    var ms := [Member(key, v)];
    assert ms[1..] == [] && MemberKeys([]) == {};
    assert MemberKeys(ms) == {key} + Keys(v) + MemberKeys(ms[1..]);
  }

  /** The look-alikes are real: any key that ends in an escaped quote and the letters of `k` makes the
      scan find a key that the document does not have. */
  lemma QuotedKeyFoolsTheScan(front: seq<Unit>, k: Bytes, t: Bytes)
    requires GoodBody(front) && Word(k) && GoodBody(PlainBody(k)) && GoodLiteral(t)
    ensures var key := front + [Escaped('\"')] + PlainBody(k);
            Contains(Text(Compact(key, [Lit(t)])), Pattern(k, [])) && !HasKey(OneMember(key, Literal(t)), k)
  {
    var key := front + [Escaped('\"')] + PlainBody(k);
    var us := Compact(key, [Lit(t)]);
    OneMemberTokens(key, Literal(t));
    LayoutIsGood(us, OneMember(key, Literal(t)));
    PlainLength(k);
    assert key[|key| - |k| - 1..] == [Escaped('\"')] + PlainBody(k);
    assert us[1] == Quoted(key, true) && us[2] == Punct(':') && |us| == 5;
    assert TightAt(us, 1, k);
    KeyScan(us, k);
    assert key[|front|] == Escaped('\"');
    EscapedQuoteStays(key, |front|);
  }

  /** An escaped quote stands for a quote, so no look-alike stands for the key. */
  lemma {:induction false} EscapedQuoteStays(b: seq<Unit>, i: nat)
    requires i < |b| && b[i] == Escaped('\"')
    ensures '\"' in Decode(b)
    decreases |b|
  {
    if b[0].Plain? || !IsUnicodeEscape(b) {
      if i > 0 {
        assert b[1..][i - 1] == b[i];
        EscapedQuoteStays(b[1..], i - 1);
      }
    } else {
      var u := CodeUnit(b);
      assert b[5..][i - 5] == b[i];
      if IsHigh(u) && IsUnicodeEscape(b[5..]) && IsLow(CodeUnit(b[5..])) {
        assert b[10..][i - 10] == b[i];
        EscapedQuoteStays(b[10..], i - 10);
      } else {
        EscapedQuoteStays(b[5..], i - 5);
      }
    }
  }

  /** And an escaped spelling hides a key: a body that stands for `k` without spelling it is not found. */
  lemma EscapedKeyIsMissed(key: seq<Unit>, k: Bytes, t: Bytes)
    requires GoodBody(key) && Word(k) && GoodLiteral(t)
    requires Decode(key) == k && !Spells(key, k)
    ensures !Contains(Text(Compact(key, [Lit(t)])), Pattern(k, [])) && HasKey(OneMember(key, Literal(t)), k)
  {
    var us := Compact(key, [Lit(t)]);
    OneMemberTokens(key, Literal(t));
    LayoutIsGood(us, OneMember(key, Literal(t)));
    KeyScan(us, k);
    assert us == [Punct('{'), Quoted(key, true), Punct(':'), Lit(t), Punct('}')];
  }

  /** Such a body: the first letter of usage as a \u escape. */
  lemma EscapedUsage()
    ensures var key := [Escaped('u'), Plain('0'), Plain('0'), Plain('7'), Plain('5')] + PlainBody("sage");
            GoodBody(key) && Decode(key) == "usage" && !Spells(key, "usage")
  {
    var key := [Escaped('u'), Plain('0'), Plain('0'), Plain('7'), Plain('5')] + PlainBody("sage");
    PlainIsGood("sage");
    PlainDecodes("sage");
    PlainLength("sage");
    PlainLength("usage");
    assert key[5..] == PlainBody("sage");
    assert CodeUnit(key) == 0x75;
    assert key[3] == Plain('7');
  }
}
