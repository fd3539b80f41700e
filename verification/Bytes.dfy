/** Byte strings, one char per byte, and the searches the relay makes in them. */
module Bytes {
  import opened Options

  type Bytes = string

  /** `p` occurs in `s` at position `i`. */
  predicate OccursAt(s: Bytes, i: nat, p: Bytes) {
    i + |p| <= |s| && s[i..i + |p|] == p
  }

  /** The first position at or after `from` where `p` occurs. */
  function Find(s: Bytes, p: Bytes, from: nat): (r: Option<nat>)
    ensures r.Some? ==> from <= r.value && OccursAt(s, r.value, p) && forall i | from <= i < r.value :: !OccursAt(s, i, p)
    ensures r.None? ==> forall i | from <= i :: !OccursAt(s, i, p)
    decreases |s| - from
  {
    if OccursAt(s, from, p) then Some(from)
    else if from >= |s| then None
    else Find(s, p, from + 1)
  }

  predicate Contains(s: Bytes, p: Bytes) {
    Find(s, p, 0).Some?
  }

  /** Occurrence, byte by byte. */
  lemma OccursBytes(s: Bytes, i: nat, p: Bytes)
    ensures OccursAt(s, i, p) <==> i + |p| <= |s| && forall k | 0 <= k < |p| :: s[i + k] == p[k]
  {
    if i + |p| <= |s| {
      var w := s[i..i + |p|];
      assert forall k | 0 <= k < |p| :: w[k] == s[i + k];
    }
  }

  lemma FindIs(s: Bytes, p: Bytes, i: nat)
    requires OccursAt(s, i, p) && forall j: nat | j < i :: !OccursAt(s, j, p)
    ensures Find(s, p, 0) == Some(i)
  {
  }

  lemma FindNone(s: Bytes, p: Bytes)
    requires forall j: nat :: !OccursAt(s, j, p)
    ensures Find(s, p, 0) == None
  {
  }

  /** The position of the first newline. */
  function Newline(s: Bytes): (r: Option<nat>)
    ensures r.Some? ==> r.value < |s| && s[r.value] == '\n' && forall i | 0 <= i < r.value :: s[i] != '\n'
    ensures r.None? ==> '\n' !in s
  {
    if s == [] then None
    else if s[0] == '\n' then Some(0)
    else var r := Newline(s[1..]); if r.None? then None else Some(r.value + 1)
  }

  /** Everything up to and including the first newline, or all of it. */
  function FirstLine(s: Bytes): Bytes {
    var i := Newline(s);
    if i.None? then s else s[..i.value + 1]
  }

  /** The text split after each newline; a last piece without one is kept. */
  function SplitLines(s: Bytes): seq<Bytes>
    decreases |s|
  {
    if s == [] then [] else [FirstLine(s)] + SplitLines(s[|FirstLine(s)|..])
  }

  function Concat(ls: seq<Bytes>): Bytes {
    if ls == [] then [] else ls[0] + Concat(ls[1..])
  }

  /** One line: not empty, and with no newline except possibly its last byte. */
  predicate IsLine(l: Bytes) {
    l != [] && '\n' !in l[..|l| - 1]
  }

  lemma FirstLineIsLine(s: Bytes)
    requires s != []
    ensures IsLine(FirstLine(s)) && |FirstLine(s)| <= |s|
    ensures s == FirstLine(s) + s[|FirstLine(s)|..]
    ensures |FirstLine(s)| < |s| ==> FirstLine(s)[|FirstLine(s)| - 1] == '\n'
  {
  }

  lemma {:induction false} SplitKeepsAll(s: Bytes)
    ensures Concat(SplitLines(s)) == s
    decreases |s|
  {
    if s != [] {
      var l := FirstLine(s);
      FirstLineIsLine(s);
      SplitKeepsAll(s[|l|..]);
      assert ([l] + SplitLines(s[|l|..]))[1..] == SplitLines(s[|l|..]);
    }
  }

  /** Splitting loses nothing, and only the last line can lack its newline. */
  lemma {:induction false} SplitIsLossless(s: Bytes)
    ensures Concat(SplitLines(s)) == s
    ensures forall i | 0 <= i < |SplitLines(s)| ::
              IsLine(SplitLines(s)[i]) && (i < |SplitLines(s)| - 1 ==> SplitLines(s)[i][|SplitLines(s)[i]| - 1] == '\n')
    decreases |s|
  {
    SplitKeepsAll(s);
    if s != [] {
      var l := FirstLine(s);
      FirstLineIsLine(s);
      var rest := SplitLines(s[|l|..]);
      SplitIsLossless(s[|l|..]);
      forall i | 0 <= i < |SplitLines(s)|
        ensures IsLine(SplitLines(s)[i])
        ensures i < |SplitLines(s)| - 1 ==> SplitLines(s)[i][|SplitLines(s)[i]| - 1] == '\n'
      {
        if i > 0 {
          assert SplitLines(s)[i] == rest[i - 1];
        }
      }
    }
  }

  /** Newlines of a concatenation. */
  lemma {:induction false} NewlineOfConcat(s: Bytes, t: Bytes)
    ensures Newline(s).Some? ==> Newline(s + t) == Newline(s)
    ensures Newline(s).None? ==> Newline(s + t) == (if Newline(t).None? then None else Some(|s| + Newline(t).value))
  {
    FirstNewline(s + t);
  }

  /** `Newline` is the least position of a newline. */
  lemma FirstNewline(s: Bytes)
    ensures forall i | 0 <= i < |s| && s[i] == '\n' && (forall j | 0 <= j < i :: s[j] != '\n') :: Newline(s) == Some(i)
  {
  }
}
