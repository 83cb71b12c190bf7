/** The bounded capture of a process's output: an in-place window over an unbounded stream. */
module TailBuffer {
  import opened Prelude
  import opened Records

  /** The last `limit` bytes of a stream; nothing for a limit that is not positive. */
  function Tail(stream: Bytes, limit: int): (tail: Bytes)
    ensures |tail| <= |stream| && (limit <= 0 ==> tail == []) && (limit > 0 ==> |tail| <= limit)
    ensures tail == stream[|stream| - |tail|..]
  {
    if limit <= 0 then []
    else if |stream| <= limit then stream
    else stream[|stream| - limit..]
  }

  /** The tail is the end of the stream, as much of it as the limit allows. */
  lemma TailExact(stream: Bytes, limit: int)
    ensures |Tail(stream, limit)| == if limit <= 0 then 0 else if |stream| < limit then |stream| else limit
    ensures Tail(stream, limit) == stream[|stream| - |Tail(stream, limit)|..]
  {
  }

  /** The tail of a longer stream needs only the tail of what came before. */
  lemma TailAppend(stream: Bytes, p: Bytes, limit: int)
    ensures Tail(Tail(stream, limit) + p, limit) == Tail(stream + p, limit)
  {
    var tail := Tail(stream, limit);
    var dropped := stream[..|stream| - |tail|];
    assert stream == dropped + tail;
    assert stream + p == dropped + (tail + p);
    TailIgnoresFront(dropped, tail + p, limit);
  }

  lemma TailIgnoresFront(front: Bytes, rest: Bytes, limit: int)
    requires front == [] || limit <= |rest|
    ensures Tail(front + rest, limit) == Tail(rest, limit)
  {
    if front == [] { assert front + rest == rest; }
  }

  /** The window after one write: the write alone if it fills the window, else as much old content as fits. */
  function Slide(window: Bytes, p: Bytes, limit: int): Bytes {
    if limit <= 0 || p == [] then window
    else if |p| >= limit then p[|p| - limit..]
    else if |window| + |p| > limit && |window| <= limit then window[|window| + |p| - limit..] + p
    else window + p
  }

  lemma SlideKeepsTail(stream: Bytes, p: Bytes, limit: int)
    ensures Slide(Tail(stream, limit), p, limit) == Tail(stream + p, limit)
  {
    TailAppend(stream, p, limit);
    SlideIsTail(Tail(stream, limit), p, limit);
  }

  lemma SlideIsTail(window: Bytes, p: Bytes, limit: int)
    requires limit <= 0 ==> window == []
    requires limit > 0 ==> |window| <= limit
    ensures Slide(window, p, limit) == Tail(window + p, limit)
  {
    if p == [] {
      assert window + p == window;
    } else if limit > 0 && |p| < limit && |window| + |p| > limit {
      assert (window + p)[|window| + |p| - limit..] == window[|window| + |p| - limit..] + p;
    }
  }

  class TailBuffer {
    const limit: int
    var buf: array<byte>
    var len: nat
    ghost var stream: Bytes

    /** The bytes in use. */
    function Window(): (w: Bytes)
      requires len <= buf.Length
      reads this, buf
      ensures |w| == len
    {
      buf[..len]
    }

    ghost predicate Valid()
      reads this, buf
    {
      len <= buf.Length && Window() == Tail(stream, limit)
    }

    constructor (limit: int)
      ensures Valid() && fresh(buf)
      ensures this.limit == limit && stream == []
    {
      this.limit := limit;
      buf := new byte[0];
      len := 0;
      stream := [];
    }

    /** Keeps the tail of everything written and reports the whole length as written. */
    method Write(p: array<byte>) returns (n: nat)
      requires Valid() && p != buf
      modifies this, buf
      ensures Valid() && (buf == old(buf) || fresh(buf))
      ensures stream == old(stream) + p[..]
      ensures n == p.Length
    {
      SlideKeepsTail(stream, p[..], limit);
      stream := stream + p[..];
      n := p.Length;
      if limit <= 0 || p.Length == 0 { return; }
      Place(p);
    }

    /** The three cases of a write to a window with room for `limit` bytes. */
    method Place(p: array<byte>)
      requires limit > 0 && p.Length > 0 && p != buf
      requires len <= buf.Length && len <= limit
      modifies this`len, this`buf, buf
      ensures len <= buf.Length && (buf == old(buf) || fresh(buf))
      ensures Window() == Slide(old(Window()), old(p[..]), limit) && p[..] == old(p[..])
    {
      if p.Length >= limit {
        Replace(p, p.Length - limit);
        return;
      }
      var overflow := len + p.Length - limit;
      if overflow > 0 { ShiftLeft(overflow); }
      AppendAll(p);
    }

    /** `append(b.buf[:0], p[from:]...)`. */
    method Replace(p: array<byte>, from: nat)
      requires from <= p.Length && p != buf
      modifies this`len, this`buf, buf
      ensures len <= buf.Length && (buf == old(buf) || fresh(buf))
      ensures Window() == old(p[..])[from..] && p[..] == old(p[..])
    {
      len := 0;
      assert Window() == [];
      Append(p, from);
    }

    method AppendAll(p: array<byte>)
      requires len <= buf.Length && p != buf
      modifies this`len, this`buf, buf
      ensures len <= buf.Length && (buf == old(buf) || fresh(buf))
      ensures Window() == old(Window()) + old(p[..]) && p[..] == old(p[..])
    {
      Append(p, 0);
      assert old(p[..])[0..] == old(p[..]);
    }

    /** `append(b.buf[:0], b.buf[overflow:]...)`: source and target overlap in one array. */
    method ShiftLeft(overflow: nat)
      requires 0 < overflow <= len <= buf.Length
      modifies this`len, buf
      ensures len == old(len) - overflow
      ensures Window() == old(Window())[overflow..]
    {
      var kept := len - overflow;
      for i := 0 to kept
        modifies buf
        invariant buf[..i] == old(buf[overflow..len])[..i]
        invariant buf[i..] == old(buf[..])[i..]
      {
        buf[i] := buf[i + overflow];
      }
      len := kept;
    }

    /** `append(b.buf, p[from:]...)`: in place when the capacity suffices, in a larger array otherwise. */
    method Append(p: array<byte>, from: nat)
      requires len <= buf.Length && from <= p.Length && p != buf
      modifies this`len, this`buf, buf
      ensures p[..] == old(p[..])
      ensures len <= buf.Length && (buf == old(buf) || fresh(buf))
      ensures Window() == old(Window()) + old(p[..])[from..]
    {
      var count := p.Length - from;
      if len + count > buf.Length { Grow(len + count); }
      var data, start := buf, len;
      for i := 0 to count
        modifies data
        invariant data[..start + i] == old(buf[..len]) + p[from..from + i]
      {
        data[start + i] := p[from + i];
      }
      len := start + count;
      assert p[from..from + count] == old(p[..])[from..];
    }

    method Grow(capacity: nat)
      requires len <= buf.Length && len <= capacity
      modifies this`buf
      ensures fresh(buf) && buf.Length == capacity
      ensures Window() == old(Window())
    {
      var larger := new byte[capacity](_ => 0);
      for i := 0 to len
        modifies larger
        invariant larger[..i] == buf[..i]
      {
        larger[i] := buf[i];
      }
      buf := larger;
    }

    method String() returns (tail: Bytes)
      requires Valid()
      ensures tail == Tail(stream, limit)
    {
      tail := Window();
    }
  }

  /** A process's output copied in any chunks: the captured text is the tail of the concatenated stream. */
  method Capture(chunks: seq<Bytes>, limit: int) returns (tail: Bytes)
    ensures tail == Tail(Flatten(chunks), limit)
    ensures |tail| == if limit <= 0 then 0 else if |Flatten(chunks)| < limit then |Flatten(chunks)| else limit
    ensures tail == Flatten(chunks)[|Flatten(chunks)| - |tail|..]
  {
    tail := Copy(chunks, limit);
    TailExact(Flatten(chunks), limit);
  }

  method Copy(chunks: seq<Bytes>, limit: int) returns (tail: Bytes)
    ensures tail == Tail(Flatten(chunks), limit)
  {
    var b := new TailBuffer(limit);
    for i := 0 to |chunks|
      invariant b.Valid() && fresh(b) && fresh(b.buf)
      invariant b.stream == Flatten(chunks[..i])
    {
      FlattenNext(chunks, i);
      WriteChunk(b, chunks[i]);
    }
    assert chunks[..|chunks|] == chunks;
    tail := b.String();
  }

  /** One read of the pipe, copied into the buffer. */
  method WriteChunk(b: TailBuffer, chunk: Bytes)
    requires b.Valid()
    modifies b, b.buf
    ensures b.Valid() && (b.buf == old(b.buf) || fresh(b.buf))
    ensures b.stream == old(b.stream) + chunk
  {
    var p := new byte[|chunk|](j requires 0 <= j < |chunk| => chunk[j]);
    assert p[..] == chunk;
    var n := b.Write(p);
  }
}
