/** `LimitedBuffer` (internal/iox/buffer.go): collects output up to a limit and remembers whether there was more. */
module LimitedBuffers {
  import opened Wrappers

  function Concat(chunks: seq<Bytes>): Bytes {
    if chunks == [] then [] else chunks[0] + Concat(chunks[1..])
  }

  lemma {:induction false} ConcatSnoc(chunks: seq<Bytes>, chunk: Bytes)
    ensures Concat(chunks + [chunk]) == Concat(chunks) + chunk
  {
    if chunks != [] {
      assert (chunks + [chunk])[1..] == chunks[1..] + [chunk];
      ConcatSnoc(chunks[1..], chunk);
    } else {
      assert Concat([chunk]) == chunk + [];
    }
  }

  /** The first `limit` bytes. */
  function Kept(limit: nat, all: Bytes): Bytes {
    if |all| <= limit then all else all[..limit]
  }

  class LimitedBuffer {
    const limit: nat
    var buffer: Bytes
    var overflow: bool

    /** Everything ever written. */
    ghost var all: Bytes

    ghost predicate Valid()
      reads this
    {
      buffer == Kept(limit, all) && (overflow <==> |all| > limit)
    }

    constructor (limit: nat)
      ensures Valid() && this.limit == limit && all == []
    {
      this.limit := limit;
      buffer, overflow, all := [], false, [];
    }

    /** Claims the whole input as written, whatever it keeps. */
    method Write(contents: Bytes) returns (written: nat)
      requires Valid()
      modifies this
      ensures Valid() && all == old(all) + contents
      ensures written == |contents|
    {
      all := all + contents;
      written := |contents|;
      var remaining := limit - |buffer|;
      if |contents| <= remaining {
        buffer := buffer + contents;
        return;
      }
      if remaining > 0 {
        buffer := buffer + contents[..remaining];
      }
      overflow := true;
    }
  }

  /** However output is cut into chunks, the buffer holds its first bytes and overflows exactly when there are more. */
  method Collect(chunks: seq<Bytes>, limit: nat) returns (output: LimitedBuffer)
    ensures fresh(output)
    ensures output.buffer == Kept(limit, Concat(chunks))
    ensures output.overflow <==> |Concat(chunks)| > limit
  {
    output := new LimitedBuffer(limit);
    for i := 0 to |chunks|
      invariant output.Valid() && output.limit == limit && output.all == Concat(chunks[..i])
      invariant fresh(output)
    {
      var written := output.Write(chunks[i]);
      assert chunks[..i + 1] == chunks[..i] + [chunks[i]];
      ConcatSnoc(chunks[..i], chunks[i]);
    }
    assert chunks[..|chunks|] == chunks;
  }
}
