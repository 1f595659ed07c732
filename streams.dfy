/** Byte streams as the pipeline passes them between stages: an
    io.ReadCloser, the ChainedCloser wrapper (main.go:22-28) and the
    bufio.Reader csvHeader reads through. */
module Streams {
  import opened Common

  /** An io.ReadCloser: the bytes it has still to deliver and whether the
      resource behind it has been closed. A ChainedCloser has a `closer`,
      the stream its Close is delegated to; a stream that owns its resource
      has none. */
  class ReadCloser {
    var rest: seq<byte>
    var closed: bool
    const closer: ReadCloser?
    ghost const depth: nat

    ghost predicate Valid()
      decreases depth
    {
      closer != null ==> closer.depth < depth && closer.Valid()
    }

    /** The stream whose resource a Close of this one finally closes. */
    ghost function Base(): (b: ReadCloser)
      requires Valid()
      ensures b.Valid() && b.closer == null
      decreases depth
    {
      if closer == null then this else closer.Base()
    }

    /** The stream at the end of the chain already exists; Base reads no
        state, so this is not known from its contract alone. */
    lemma BaseAllocated()
      requires Valid()
      ensures allocated(Base())
      decreases depth
    {
      if closer != null {
        closer.BaseAllocated();
      }
    }

    /** A stream over data that owns its resource. */
    constructor Open(data: seq<byte>)
      ensures Valid() && Base() == this
      ensures rest == data && !closed
    {
      rest, closed, closer, depth := data, false, null, 0;
    }

    /** ChainedCloser{r, c}: reads deliver data, Close closes c. */
    constructor Chained(data: seq<byte>, c: ReadCloser)
      requires c.Valid()
      ensures Valid() && closer == c && Base() == c.Base()
      ensures rest == data && !closed
    {
      rest, closed, closer, depth := data, false, c, c.depth + 1;
    }

    /** Reads the stream to its end. */
    method ReadAll() returns (data: seq<byte>)
      modifies this
      ensures data == old(rest) && rest == [] && closed == old(closed)
    {
      data := rest;
      rest := [];
    }

    /** Closes the resource behind the stream; a ChainedCloser delegates. */
    method Close()
      requires Valid()
      modifies Base()
      ensures Base().closed && Base().rest == old(Base().rest)
      decreases depth
    {
      if closer == null {
        closed := true;
      } else {
        closer.Close();
      }
    }
  }

  /** What a stage hands on: a stream's remaining bytes, or nil. */
  datatype Flow = Nil | Data(bytes: seq<byte>)

  function FlowOf(r: ReadCloser?): Flow
    reads r
  {
    if r == null then Nil else Data(r.rest)
  }

  /** A stage's result as a value: its error, or the flow it hands on. */
  function FlowResult(res: Result<ReadCloser?>): Result<Flow>
    reads if res.Ok? then {res.value} else {}
  {
    match res
    case Err(e) => Err(e)
    case Ok(r) => Ok(FlowOf(r))
  }

  /** bufio.Reader over a stream: the bytes taken from it and the read position. */
  class BufferedReader {
    var buf: seq<byte>
    var pos: nat

    ghost predicate Valid()
      reads this
    {
      pos <= |buf|
    }

    function Remaining(): seq<byte>
      reads this
      requires Valid()
    {
      buf[pos..]
    }

    constructor (data: seq<byte>)
      ensures Valid() && Remaining() == data
    {
      buf, pos := data, 0;
    }

    /** Peek(n): the next n bytes without consuming them; an error when
        fewer than n remain. */
    method Peek(n: nat) returns (res: Result<seq<byte>>)
      requires Valid()
      ensures |Remaining()| < n ==> res == Err(ShortInput)
      ensures n <= |Remaining()| ==> res == Ok(Remaining()[..n])
    {
      if |buf| - pos < n {
        res := Err(ShortInput);
      } else {
        assert buf[pos..pos + n] == Remaining()[..n];
        res := Ok(buf[pos..pos + n]);
      }
    }

    /** Discard(n): skips up to n bytes and says how many it skipped. */
    method Discard(n: nat) returns (skipped: nat)
      requires Valid()
      modifies this
      ensures Valid() && buf == old(buf)
      ensures skipped == if n <= |old(Remaining())| then n else |old(Remaining())|
      ensures Remaining() == old(Remaining())[skipped..]
    {
      skipped := if n <= |buf| - pos then n else |buf| - pos;
      pos := pos + skipped;
    }
  }
}
