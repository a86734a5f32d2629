/**
 * The byte pipes between a client and its child process. A `Reader` is the whole
 * output the peer will ever write, with a cursor at the next unread byte; a
 * `Writer` is everything written so far. Blocking, partial reads and I/O errors
 * are not part of this model.
 */
module Stream {
  import opened Text

  /** Index one past the first line feed at or after `pos`, or the end of `data`. */
  function LineEnd(data: seq<byte>, pos: nat): (e: nat)
    requires pos <= |data|
    ensures pos <= e <= |data|
    ensures e == pos <==> pos == |data|
    decreases |data| - pos
  {
    if pos == |data| then pos
    else if data[pos] == LF then pos + 1
    else LineEnd(data, pos + 1)
  }

  /**
   * A line runs to its first line feed, which it includes; only the last line of
   * the stream may end without one.
   */
  lemma {:induction false} LineEndSpec(data: seq<byte>, pos: nat)
    requires pos <= |data|
    ensures var e := LineEnd(data, pos);
      && LF !in data[pos..(if e > pos && data[e - 1] == LF then e - 1 else e)]
      && (e < |data| ==> e > pos && data[e - 1] == LF)
    decreases |data| - pos
  {
    if pos < |data| && data[pos] != LF {
      LineEndSpec(data, pos + 1);
      var e := LineEnd(data, pos + 1);
      var stop := if e > pos + 1 && data[e - 1] == LF then e - 1 else e;
      assert data[pos..stop] == [data[pos]] + data[pos + 1..stop];
    }
  }

  /** A line that has no line feed in its first `k` bytes and one at byte `k` ends just after it. */
  lemma {:induction false} LineEndAt(data: seq<byte>, pos: nat, k: nat)
    requires pos + k < |data|
    requires LF !in data[pos..pos + k] && data[pos + k] == LF
    ensures LineEnd(data, pos) == pos + k + 1
    decreases k
  {
    if k > 0 {
      assert data[pos] == data[pos..pos + k][0];
      assert data[pos + 1..pos + 1 + (k - 1)] == data[pos..pos + k][1..];
      LineEndAt(data, pos + 1, k - 1);
    }
  }

  class Reader {
    const data: seq<byte>
    var pos: nat

    ghost predicate Valid()
      reads this
    {
      pos <= |data|
    }

    constructor (data: seq<byte>)
      ensures Valid() && this.data == data && pos == 0
    {
      this.data := data;
      pos := 0;
    }

    /** Python's `readline()` and Rust's `read_line`: the bytes up to and including the next line feed, or to the end. */
    method ReadLine() returns (line: seq<byte>)
      requires Valid()
      modifies this`pos
      ensures Valid() && pos == LineEnd(data, old(pos)) && line == data[old(pos)..pos]
    {
      var start := pos;
      while pos < |data| && data[pos] != LF
        invariant start <= pos <= |data|
        invariant LineEnd(data, start) == LineEnd(data, pos)
        decreases |data| - pos
      {
        pos := pos + 1;
      }
      if pos < |data| {
        pos := pos + 1;
      }
      line := data[start..pos];
    }

    /** Python's `read(n)` on a pipe: up to `n` bytes, fewer only when the stream ends first. */
    method Read(n: nat) returns (chunk: seq<byte>)
      requires Valid()
      modifies this`pos
      ensures Valid()
      ensures pos == if old(pos) + n <= |data| then old(pos) + n else |data|
      ensures chunk == data[old(pos)..pos]
    {
      var end := if pos + n <= |data| then pos + n else |data|;
      chunk := data[pos..end];
      pos := end;
    }
  }

  class Writer {
    var written: seq<byte>

    constructor ()
      ensures written == []
    {
      written := [];
    }

    /** `write_all`: appends every byte, in order. */
    method WriteAll(bytes: seq<byte>)
      modifies this
      ensures written == old(written) + bytes
    {
      written := written + bytes;
    }
  }
}
