/** The catalog's model-name rewrite of response frames. */
module Catalog {
  import opened Options
  import opened Bytes

  /** A model's public id and the name its engine answers to. */
  datatype Entry = Entry(id: Bytes, upstreamModel: Bytes)

  predicate Rewrites(e: Entry) {
    e.upstreamModel != e.id
  }

  function Needle(name: Bytes): Bytes {
    "\"model\":\"" + name + "\""
  }

  function SpacedNeedle(name: Bytes): Bytes {
    "\"model\": \"" + name + "\""
  }

  /** `frame` with the occurrence of `needle` at `i` replaced. */
  function Splice(frame: Bytes, i: nat, needle: Bytes, repl: Bytes): Bytes
    requires i + |needle| <= |frame|
  {
    frame[..i] + repl + frame[i + |needle|..]
  }

  /** The first occurrence of `n` replaced by `r`, or failing that the first one of `n'` by `r'`. */
  function Replace(frame: Bytes, n: Bytes, r: Bytes, n': Bytes, r': Bytes): Bytes {
    var i := Find(frame, n, 0);
    if i.Some? then Splice(frame, i.value, n, r)
    else
      var j := Find(frame, n', 0);
      if j.Some? then Splice(frame, j.value, n', r') else frame
  }

  /** The first compact needle is replaced, or failing that the first spaced one. */
  function Patch(e: Entry, frame: Bytes): Bytes {
    if !Rewrites(e) then frame
    else Replace(frame, Needle(e.upstreamModel), Needle(e.id), SpacedNeedle(e.upstreamModel), SpacedNeedle(e.id))
  }

  /** The rewrite over the entry's needles, in order. */
  method PatchModelName(e: Entry, frame: Bytes) returns (r: Bytes)
    ensures r == Patch(e, frame)
  {
    if !Rewrites(e) {
      return frame;
    }
    var needles := [Needle(e.upstreamModel), SpacedNeedle(e.upstreamModel)];
    var repls := [Needle(e.id), SpacedNeedle(e.id)];
    for i := 0 to |needles|
      invariant forall k | 0 <= k < i :: Find(frame, needles[k], 0).None?
    {
      var idx := Find(frame, needles[i], 0);
      if idx.Some? {
        assert i == 1 ==> Find(frame, needles[0], 0).None?;
        return Splice(frame, idx.value, needles[i], repls[i]);
      }
    }
    assert Find(frame, needles[0], 0).None? && Find(frame, needles[1], 0).None?;
    return frame;
  }

  predicate OneLine(s: Bytes) {
    '\n' !in s && '\r' !in s
  }

  predicate GoodNames(e: Entry) {
    OneLine(e.id) && OneLine(e.upstreamModel)
  }

  predicate QuotedPattern(p: Bytes) {
    |p| > 0 && p[0] == '\"' && '\n' !in p
  }

  /** `line` is `s` behind a prefix without quotes, and a newline. */
  predicate Framed(line: Bytes, prefix: Bytes, s: Bytes) {
    line == prefix + s + "\n" && '\"' !in prefix
  }

  lemma OccursInside(line: Bytes, prefix: Bytes, s: Bytes, p: Bytes, i: nat)
    requires Framed(line, prefix, s) && QuotedPattern(p)
    ensures OccursAt(line, i, p) <==> i >= |prefix| && OccursAt(s, i - |prefix|, p)
  {
    OccursBytes(line, i, p);
    if OccursAt(line, i, p) {
      assert line[i + 0] == p[0] && line[i + (|p| - 1)] == p[|p| - 1];
    }
    if i >= |prefix| {
      var j := i - |prefix|;
      OccursBytes(s, j, p);
      assert forall k | 0 <= k < |s| :: line[|prefix| + k] == s[k];
    }
  }

  lemma FirstInside(line: Bytes, prefix: Bytes, s: Bytes, p: Bytes, q: nat)
    requires Framed(line, prefix, s) && QuotedPattern(p)
    requires OccursAt(s, q, p) && forall i: nat | i < q :: !OccursAt(s, i, p)
    ensures Find(line, p, 0) == Some(|prefix| + q)
  {
    var k := |prefix| + q;
    forall i: nat | i < k ensures !OccursAt(line, i, p) { OccursInside(line, prefix, s, p, i); }
    OccursInside(line, prefix, s, p, k);
    FindIs(line, p, k);
  }

  /** A pattern that begins with a quote and has no newline is found in a line only inside the text
      between a quote-free prefix and the newline. */
  lemma FindInside(line: Bytes, prefix: Bytes, s: Bytes, p: Bytes)
    requires Framed(line, prefix, s) && QuotedPattern(p)
    ensures Find(line, p, 0) == var r := Find(s, p, 0); if r.None? then None else Some(|prefix| + r.value)
  {
    var r := Find(s, p, 0);
    if r.None? {
      forall i: nat ensures !OccursAt(line, i, p) { OccursInside(line, prefix, s, p, i); }
      FindNone(line, p);
    } else {
      FirstInside(line, prefix, s, p, r.value);
    }
  }

  lemma SpliceInside(line: Bytes, prefix: Bytes, s: Bytes, i: nat, needle: Bytes, repl: Bytes)
    requires Framed(line, prefix, s) && i + |needle| <= |s|
    ensures Framed(Splice(line, |prefix| + i, needle, repl), prefix, Splice(s, i, needle, repl))
  {
    assert line[..|prefix| + i] == prefix + s[..i];
    assert line[|prefix| + i + |needle|..] == s[i + |needle|..] + "\n";
  }

  lemma ReplaceInside(line: Bytes, prefix: Bytes, s: Bytes, n: Bytes, r: Bytes, n': Bytes, r': Bytes)
    requires Framed(line, prefix, s) && QuotedPattern(n) && QuotedPattern(n')
    ensures Framed(Replace(line, n, r, n', r'), prefix, Replace(s, n, r, n', r'))
  {
    FindInside(line, prefix, s, n);
    FindInside(line, prefix, s, n');
    var i, j := Find(s, n, 0), Find(s, n', 0);
    if i.Some? {
      SpliceInside(line, prefix, s, i.value, n, r);
    } else if j.Some? {
      SpliceInside(line, prefix, s, j.value, n', r');
    }
  }

  lemma NeedlesAreQuoted(name: Bytes)
    requires '\n' !in name
    ensures QuotedPattern(Needle(name)) && QuotedPattern(SpacedNeedle(name))
  {
  }

  /** Patching a line patches the payload between its prefix and its newline. */
  lemma PatchInside(e: Entry, prefix: Bytes, s: Bytes)
    requires '\"' !in prefix && GoodNames(e)
    ensures Patch(e, prefix + s + "\n") == prefix + Patch(e, s) + "\n"
  {
    NeedlesAreQuoted(e.upstreamModel);
    ReplaceInside(prefix + s + "\n", prefix, s, Needle(e.upstreamModel), Needle(e.id),
                  SpacedNeedle(e.upstreamModel), SpacedNeedle(e.id));
  }

  lemma PatchStaysOneLine(e: Entry, s: Bytes)
    requires GoodNames(e) && OneLine(s)
    ensures OneLine(Patch(e, s))
  {
  }

  /** Text without a quote is never touched. */
  lemma PatchNeedsQuote(e: Entry, s: Bytes)
    requires '\"' !in s
    ensures Patch(e, s) == s
  {
    QuoteMissing(s, Needle(e.upstreamModel));
    QuoteMissing(s, SpacedNeedle(e.upstreamModel));
  }

  lemma QuoteMissing(s: Bytes, p: Bytes)
    requires '\"' !in s && |p| > 0 && p[0] == '\"'
    ensures Find(s, p, 0).None?
  {
    var r := Find(s, p, 0);
    if r.Some? { OccursBytes(s, r.value, p); }
  }
}
