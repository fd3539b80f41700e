/** Classifying one line of an event stream by scanning its bytes. */
module Frames {
  import opened Options
  import opened Bytes

  const DATA_PREFIX := "data: "
  const DONE := "[DONE]"
  const USAGE_KEY := "\"usage\":"
  const USAGE_NULL := "\"usage\":null"
  const CONTENT := "\"content\":\""
  const CONTENT_EMPTY := "\"content\":\"\""
  const REASONING := "\"reasoning_content\":\""
  const REASONING_EMPTY := "\"reasoning_content\":\"\""
  const TOOL_CALLS := "\"tool_calls\":"

  function TrimRightNewlines(s: Bytes): Bytes {
    if |s| > 0 && (s[|s| - 1] == '\r' || s[|s| - 1] == '\n') then TrimRightNewlines(s[..|s| - 1]) else s
  }

  predicate IsSpace(c: char) {
    c == ' ' || c == '\t' || c == '\n' || c == '\r' || c == 11 as char || c == 12 as char
  }

  function TrimSpaceRight(s: Bytes): Bytes {
    if |s| > 0 && IsSpace(s[|s| - 1]) then TrimSpaceRight(s[..|s| - 1]) else s
  }

  function TrimSpace(s: Bytes): Bytes {
    if |s| > 0 && IsSpace(s[0]) then TrimSpace(s[1..]) else TrimSpaceRight(s)
  }

  /** The payload of a data line, None for any other line. */
  function SseData(line: Bytes): Option<Bytes> {
    var trimmed := TrimRightNewlines(line);
    if DATA_PREFIX <= trimmed then Some(TrimSpace(trimmed[|DATA_PREFIX|..])) else None
  }

  predicate HasUsage(payload: Bytes) {
    Contains(payload, USAGE_KEY) && !Contains(payload, USAGE_NULL)
  }

  predicate CarriesToken(payload: Bytes) {
    || (Contains(payload, CONTENT) && !Contains(payload, CONTENT_EMPTY))
    || (Contains(payload, REASONING) && !Contains(payload, REASONING_EMPTY))
    || Contains(payload, TOOL_CALLS)
  }

  /** The line "data: " + `e` + newline, for a payload without line breaks, is a data line with `e`
      trimmed of surrounding spaces. */
  lemma DataLine(e: Bytes)
    requires '\n' !in e && '\r' !in e
    ensures SseData(DATA_PREFIX + e + "\n") == Some(TrimSpace(e))
  {
    var line := DATA_PREFIX + e + "\n";
    assert line[..|line| - 1] == DATA_PREFIX + e;
    var body := DATA_PREFIX + e;
    assert body[|body| - 1] == if e == [] then ' ' else e[|e| - 1];
    assert TrimRightNewlines(body) == body;
    assert body[|DATA_PREFIX|..] == e;
  }

  /** A blank line is no data line. */
  lemma BlankLine()
    ensures SseData("\n") == None
  {
    assert "\n"[..0] == "";
  }

  /** Trimming takes away line breaks at the end, and all of them. */
  lemma {:induction false} TrimRightMeans(s: Bytes)
    ensures TrimRightNewlines(s) <= s
    ensures forall i | |TrimRightNewlines(s)| <= i < |s| :: s[i] == '\r' || s[i] == '\n'
    ensures var r := TrimRightNewlines(s); r == [] || (r[|r| - 1] != '\r' && r[|r| - 1] != '\n')
    decreases |s|
  {
    if |s| > 0 && (s[|s| - 1] == '\r' || s[|s| - 1] == '\n') { TrimRightMeans(s[..|s| - 1]); }
  }

  predicate AllSpace(s: Bytes) {
    forall i | 0 <= i < |s| :: IsSpace(s[i])
  }

  lemma {:induction false} TrimSpaceRightMeans(s: Bytes) returns (after: Bytes)
    ensures s == TrimSpaceRight(s) + after && AllSpace(after)
    ensures var r := TrimSpaceRight(s); r == [] || !IsSpace(r[|r| - 1])
    decreases |s|
  {
    if |s| > 0 && IsSpace(s[|s| - 1]) {
      var rest := TrimSpaceRightMeans(s[..|s| - 1]);
      after := rest + [s[|s| - 1]];
      assert s == s[..|s| - 1] + [s[|s| - 1]];
    } else {
      after := [];
    }
  }

  /** Trimming takes away the white space around a text, and all of it. */
  lemma {:induction false} TrimSpaceMeans(s: Bytes) returns (before: Bytes, after: Bytes)
    ensures s == before + TrimSpace(s) + after && AllSpace(before) && AllSpace(after)
    ensures var r := TrimSpace(s); r == [] || (!IsSpace(r[0]) && !IsSpace(r[|r| - 1]))
    decreases |s|
  {
    if |s| > 0 && IsSpace(s[0]) {
      var b;
      b, after := TrimSpaceMeans(s[1..]);
      before := [s[0]] + b;
      assert s == [s[0]] + s[1..];
    } else {
      before := [];
      after := TrimSpaceRightMeans(s);
    }
  }

  /** A line is data exactly when it begins with the prefix, and then its payload is what follows,
      without the line break and the white space around it. */
  lemma SseDataMeans(line: Bytes)
    ensures SseData(line).Some? <==> DATA_PREFIX <= line
    ensures SseData(line).Some? ==> SseData(line).value == TrimSpace(line[|DATA_PREFIX|..])
  {
    TrimRightMeans(line);
    var t := TrimRightNewlines(line);
    if DATA_PREFIX <= line {
      PrefixSurvives(line, DATA_PREFIX);
      TrimBreaks(line[|DATA_PREFIX|..], t[|DATA_PREFIX|..]);
    }
  }

  lemma PrefixSurvives(line: Bytes, p: Bytes)
    requires p <= line && p != [] && p[|p| - 1] != '\r' && p[|p| - 1] != '\n'
    ensures p <= TrimRightNewlines(line)
  {
    TrimRightMeans(line);
    var t := TrimRightNewlines(line);
    assert line[|p| - 1] == p[|p| - 1];
    if |t| < |p| {
      assert false;
    } else {
      assert t == line[..|t|] && p == line[..|p|] && t[..|p|] == line[..|p|];
    }
  }

  /** Line breaks at the end are white space to trimming. */
  lemma {:induction false} TrimBreaks(s: Bytes, t: Bytes)
    requires t <= s && AllSpace(s[|t|..])
    ensures TrimSpace(s) == TrimSpace(t)
    decreases |s|
  {
    if |t| < |s| {
      var s' := s[..|s| - 1];
      assert IsSpace(s[|t|..][|s| - 1 - |t|]);
      assert s'[|t|..] == s[|t|..][..|s| - 1 - |t|];
      TrimBreaks(s', t);
      TrimLast(s);
    } else {
      assert s == t;
    }
  }

  lemma {:induction false} TrimLast(s: Bytes)
    requires s != [] && IsSpace(s[|s| - 1])
    ensures TrimSpace(s) == TrimSpace(s[..|s| - 1])
    decreases |s|
  {
    if IsSpace(s[0]) && |s| > 1 {
      TrimLast(s[1..]);
      assert s[1..][..|s| - 2] == s[..|s| - 1][1..];
    }
  }
}
