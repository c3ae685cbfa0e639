/** Chunks of bytes and the writable stream that takes them. */
module Streams {
  type Chunk = seq<bv8>

  function Total(chunks: seq<Chunk>): nat {
    if chunks == [] then 0 else |chunks[0]| + Total(chunks[1..])
  }

  lemma {:induction false} TotalConcat(a: seq<Chunk>, b: seq<Chunk>)
    ensures Total(a + b) == Total(a) + Total(b)
  {
    if a == [] {
      assert a + b == b;
    } else {
      assert (a + b)[1..] == a[1..] + b;
      TotalConcat(a[1..], b);
    }
  }

  /** The stream downstream: write number `k` asks for a pause unless `accepts(k)`. */
  class WriteStream {
    const accepts: nat -> bool
    var written: seq<Chunk>
    var ended: bool
    var destroyed: bool

    constructor (accepts: nat -> bool)
      ensures written == [] && !ended && !destroyed && this.accepts == accepts
    {
      this.accepts := accepts;
      written, ended, destroyed := [], false, false;
    }

    ghost predicate AllAccepted(from: nat, to: int) {
      forall k :: from <= k < to ==> accepts(k)
    }

    method Write(chunk: Chunk) returns (canWrite: bool)
      requires !ended
      modifies this`written
      ensures written == old(written) + [chunk] && canWrite == accepts(|old(written)|)
    {
      canWrite := accepts(|written|);
      written := written + [chunk];
    }

    method End()
      requires !ended
      modifies this`ended
      ensures ended
    {
      ended := true;
    }

    method Destroy()
      modifies this`destroyed
      ensures destroyed
    {
      destroyed := true;
    }
  }
}
