/**
 Reading an upstream event stream line by line through a bounded buffer. The buffered reader is
 its contract: `rest` is what the stream will still deliver.
 */
module SseReader {
  import opened Options
  import opened Bytes

  datatype ReadError = NoError | BufferFull | EndOfStream | ReadFailed

  /** How a stream ends: at its end, or because reading it fails there. */
  function Ending(broken: bool): ReadError {
    if broken then ReadFailed else EndOfStream
  }

  /** What one buffered read takes from `rest`: through the first newline, but no more than the
      buffer holds. When exactly a bufferful without a newline is left, `early` says whether the
      stream's end arrived with its last byte. */
  ghost predicate Sliced(rest: Bytes, size: nat, early: bool, broken: bool, line: Bytes, err: ReadError) {
    var nl := Newline(rest);
    && line <= rest
    && if nl.Some? && nl.value < size then |line| == nl.value + 1 && err == NoError
       else if |rest| < size || (|rest| == size && early) then |line| == |rest| && err == Ending(broken)
       else |line| == size && err == BufferFull
  }

  class Reader {
    const size: nat
    const broken: bool
    var rest: Bytes

    constructor (size: nat, rest: Bytes, broken: bool)
      ensures this.size == size && this.rest == rest && this.broken == broken
    {
      this.size, this.rest, this.broken := size, rest, broken;
    }

    method ReadSlice(early: bool) returns (line: Bytes, err: ReadError)
      requires size > 0
      modifies this
      ensures Sliced(old(rest), size, early, broken, line, err)
      ensures old(rest) == line + rest
    {
      var nl := Newline(rest);
      if nl.Some? && nl.value < size {
        line, err := rest[..nl.value + 1], NoError;
      } else if |rest| < size || (|rest| == size && early) {
        line, err := rest, Ending(broken);
      } else {
        line, err := rest[..size], BufferFull;
      }
      rest := rest[|line|..];
    }
  }

  /** What has been gathered of the first line of `all`: a piece of it while the buffer was full,
      and then the whole of it. */
  ghost predicate Gathered(all: Bytes, scratch: Bytes, rest: Bytes, broken: bool, err: ReadError) {
    && all == scratch + rest
    && if err == BufferFull then '\n' !in scratch
       else scratch == FirstLine(all) && err == if Newline(all).Some? then NoError else Ending(broken)
  }

  lemma GatherMore(all: Bytes, scratch: Bytes, left: Bytes, size: nat, early: bool, broken: bool,
                   line: Bytes, rest: Bytes, err: ReadError)
    requires all == scratch + left && '\n' !in scratch
    requires Sliced(left, size, early, broken, line, err) && left == line + rest
    ensures Gathered(all, scratch + line, rest, broken, err)
  {
    assert all == scratch + line + rest;
    NewlineOfConcat(scratch, left);
    assert Newline(scratch).None?;
    if err == NoError {
      assert FirstLine(all) == all[..|scratch| + |line|];
    } else if err == Ending(broken) {
      assert rest == [];
    } else {
      assert forall i | 0 <= i < |line| :: line[i] == left[i];
    }
  }

  /** One line with its newline, however long, whatever the buffer's size. */
  method ReadSSELine(r: Reader) returns (line: Bytes, err: ReadError)
    requires r.size > 0
    modifies r
    ensures line == FirstLine(old(r.rest)) && r.rest == old(r.rest)[|line|..]
    ensures err == if Newline(old(r.rest)).Some? then NoError else Ending(r.broken)
  {
    ghost var all := r.rest;
    var early: bool := *;
    line, err := r.ReadSlice(early);
    assert all == [] + all && [] + line == line;
    GatherMore(all, [], all, r.size, early, r.broken, line, r.rest, err);
    if err != BufferFull {
      return;
    }
    var scratch := line;
    while err == BufferFull
      invariant Gathered(all, scratch, r.rest, r.broken, err)
      decreases err == BufferFull, |r.rest|
    {
      ghost var left := r.rest;
      early := *;
      line, err := r.ReadSlice(early);
      GatherMore(all, scratch, left, r.size, early, r.broken, line, r.rest, err);
      scratch := scratch + line;
    }
    line := scratch;
  }

  /** Reading to the end of the stream yields exactly its lines, for any buffer size. */
  method ReadLines(r: Reader) returns (lines: seq<Bytes>)
    requires r.size > 0
    modifies r
    ensures lines == SplitLines(old(r.rest)) && r.rest == []
  {
    lines := [];
    var err := NoError;
    while err == NoError
      invariant lines + SplitLines(r.rest) == SplitLines(old(r.rest))
      invariant err != NoError ==> r.rest == []
      decreases err == NoError, |r.rest|
    {
      var line;
      ghost var left := r.rest;
      line, err := ReadSSELine(r);
      if |line| > 0 {
        lines := lines + [line];
      }
    }
  }
}
