/**
 The recording buffer of src/lib/BufferedWriteStream.ts in front of a write stream that answers
 each write as it likes. The ghost fields keep what was received and what became of it.
 */
module BufferedWriteStream {
  import opened Streams

  /** Discarded: still buffered when the buffer was destroyed. */
  datatype Fate = Written | Dropped | Discarded

  /** The received chunks that met the given fate, in order. */
  ghost function Select(received: seq<Chunk>, fates: seq<Fate>, fate: Fate): seq<Chunk>
    requires |fates| <= |received|
  {
    if fates == [] then []
    else
      var last := |fates| - 1;
      Select(received, fates[..last], fate) + if fates[last] == fate then [received[last]] else []
  }

  /** More fates were settled, all of them the given one. */
  ghost predicate Adds(before: seq<Fate>, after: seq<Fate>, fate: Fate) {
    before <= after && forall i :: |before| <= i < |after| ==> after[i] == fate
  }

  /** Chunks received later do not change what was selected before. */
  lemma {:induction false} SelectEarlier(received: seq<Chunk>, more: seq<Chunk>, fates: seq<Fate>, fate: Fate)
    requires |fates| <= |received|
    ensures Select(received + more, fates, fate) == Select(received, fates, fate)
  {
    if fates != [] { SelectEarlier(received, more, fates[..|fates| - 1], fate); }
  }

  lemma SelectNext(received: seq<Chunk>, fates: seq<Fate>, next: Fate, fate: Fate)
    requires |fates| < |received|
    ensures Select(received, fates + [next], fate) == Select(received, fates, fate) + if next == fate then [received[|fates|]] else []
  {
    assert (fates + [next])[..|fates|] == fates;
  }

  lemma {:induction false} SelectWithout(received: seq<Chunk>, fates: seq<Fate>, more: seq<Fate>, fate: Fate)
    requires |fates| + |more| <= |received| && fate !in more
    ensures Select(received, fates + more, fate) == Select(received, fates, fate)
  {
    if more == [] {
      assert fates + more == fates;
    } else {
      var last := |more| - 1;
      assert (fates + more)[..|fates| + last] == fates + more[..last];
      assert more[last] in more && forall f :: f in more[..last] ==> f in more;
      SelectWithout(received, fates, more[..last], fate);
    }
  }

  lemma SettledBytes(received: seq<Chunk>, fates: seq<Fate>, fate: Fate)
    requires 0 < |fates| <= |received|
    ensures var last := |fates| - 1;
      Total(Select(received, fates, fate))
        == Total(Select(received, fates[..last], fate)) + if fates[last] == fate then |received[last]| else 0
  {
    var last := |fates| - 1;
    var before := Select(received, fates[..last], fate);
    TotalConcat(before, [received[last]]);
    assert before + [] == before;
  }

  /** Every byte received was written once, or dropped once, or discarded once, or still waits. */
  lemma {:induction false} BytesConserved(received: seq<Chunk>, fates: seq<Fate>)
    requires |fates| <= |received|
    ensures Total(received) == Total(Select(received, fates, Written)) + Total(Select(received, fates, Dropped))
                               + Total(Select(received, fates, Discarded)) + Total(received[|fates|..])
  {
    if fates == [] {
      assert received[0..] == received;
    } else {
      var last := |fates| - 1;
      BytesConserved(received, fates[..last]);
      var chunk := received[last];
      assert received[last..] == [chunk] + received[|fates|..];
      TotalConcat([chunk], received[|fates|..]);
      SettledBytes(received, fates, Written);
      SettledBytes(received, fates, Dropped);
      SettledBytes(received, fates, Discarded);
    }
  }

  ghost predicate AllWritten(fates: seq<Fate>) {
    forall i :: 0 <= i < |fates| ==> fates[i] == Written
  }

  /** If nothing was dropped, what was written and what waits are all that was received, in order. */
  lemma {:induction false} NothingLost(received: seq<Chunk>, fates: seq<Fate>)
    requires |fates| <= |received|
    ensures AllWritten(fates) ==> Select(received, fates, Written) + received[|fates|..] == received
  {
    if fates != [] && AllWritten(fates) {
      var last := |fates| - 1;
      NothingLost(received, fates[..last]);
      assert Select(received, fates[..last], Written) == received[..last];
    }
  }

  /** How many of the oldest chunks go when the buffer holds `chunks`: down to 90%, but never the newest. */
  function Surplus(chunks: seq<Chunk>, max: nat): nat {
    if Total(chunks) < max then 0 else Excess(chunks, max)
  }

  function Excess(chunks: seq<Chunk>, max: nat): (n: nat) {
    if 10 * Total(chunks) <= 9 * max || |chunks| <= 1 then 0 else 1 + Excess(chunks[1..], max)
  }

  /** As few as possible are dropped, and what stays fits, or is the newest chunk alone. */
  lemma {:induction false} ExcessIsLeast(chunks: seq<Chunk>, max: nat)
    requires chunks != []
    ensures var n := Excess(chunks, max);
      && n < |chunks|
      && (10 * Total(chunks[n..]) <= 9 * max || n == |chunks| - 1)
      && forall k :: 0 <= k < n ==> 10 * Total(chunks[k..]) > 9 * max
  {
    if 10 * Total(chunks) <= 9 * max || |chunks| <= 1 {
      assert chunks[0..] == chunks;
    } else {
      ExcessIsLeast(chunks[1..], max);
      var n := Excess(chunks[1..], max);
      assert chunks[n + 1..] == chunks[1..][n..];
      forall k | 0 <= k < n + 1 ensures 10 * Total(chunks[k..]) > 9 * max {
        if k == 0 { assert chunks[0..] == chunks; } else { assert chunks[k..] == chunks[1..][k - 1..]; }
      }
    }
  }

  /**
   Below the maximum nothing is dropped; from there on, down to nine tenths of it. The buffer then holds
   at most the maximum, or the newest chunk alone.
   */
  lemma SurplusBounds(chunks: seq<Chunk>, max: nat)
    requires chunks != []
    ensures Surplus(chunks, max) < |chunks|
    ensures Total(chunks) < max ==> Surplus(chunks, max) == 0
    ensures Total(chunks) >= max ==>
      && (10 * Total(chunks[Surplus(chunks, max)..]) <= 9 * max || Surplus(chunks, max) == |chunks| - 1)
      && forall k :: 0 <= k < Surplus(chunks, max) ==> 10 * Total(chunks[k..]) > 9 * max
    ensures var rest := Total(chunks[Surplus(chunks, max)..]); rest <= max || rest == |chunks[|chunks| - 1]|
  {
    ExcessIsLeast(chunks, max);
    var n := Surplus(chunks, max);
    if n == 0 { assert chunks[0..] == chunks; }
    if n == |chunks| - 1 { assert chunks[n..] == [chunks[n]] && Total([chunks[n]]) == |chunks[n]|; }
  }

  class BufferedWriteStream {
    var chunks: seq<Chunk>
    var totalBuffered: int
    const maxBufferSize: nat
    var drainPending: bool
    var isWriting: bool
    var writeStream: WriteStream?
    /** The stream that the next drain will try to end. */
    var finishing: WriteStream?

    ghost var received: seq<Chunk>
    ghost var fates: seq<Fate>
    ghost var sink: WriteStream?
    ghost var finalCalled: bool
    ghost var destroyed: bool

    ghost function Sent(): seq<Chunk>
      reads this`sink, sink
    {
      if sink == null then [] else sink.written
    }

    ghost predicate Ended()
      reads this`sink, sink
    {
      sink != null && sink.ended
    }

    /** Received chunks split, in order, into those settled and those still buffered. */
    ghost predicate Conserved()
      reads this`chunks, this`totalBuffered, this`received, this`fates, this`sink, sink
    {
      && |fates| + |chunks| == |received|
      && chunks == received[|fates|..]
      && totalBuffered == Total(chunks)
      && forall fate :: fate == Written ==> Sent() == Select(received, fates, fate)
    }

    ghost predicate Valid()
      reads this, sink
    {
      && Conserved()
      && !isWriting
      && writeStream == (if destroyed then null else sink)
      && (finishing != null ==> finishing == sink && finalCalled && !sink.ended)
      && (destroyed ==> chunks == [])
      && (Ended() ==> finalCalled && !drainPending && chunks == [] && finishing == null)
      && (drainPending ==> Refused())
    }

    /** The last write was answered with no. */
    ghost predicate Refused()
      reads this`sink, sink
    {
      sink != null && sink.written != [] && !sink.accepts(|sink.written| - 1)
    }

    constructor (maxBufferSize: nat)
      ensures Valid() && this.maxBufferSize == maxBufferSize
      ensures received == [] && sink == null && !drainPending && !finalCalled && !destroyed
    {
      this.maxBufferSize := maxBufferSize;
      chunks, totalBuffered, drainPending, isWriting, writeStream, finishing := [], 0, false, false, null, null;
      received, fates, sink, finalCalled, destroyed := [], [], null, false, false;
    }

    method SetWriteStream(ws: WriteStream)
      requires Valid() && sink == null && !destroyed && ws.written == [] && !ws.ended
      modifies this`writeStream, this`sink
      ensures Valid() && writeStream == ws && sink == ws
    {
      writeStream, sink := ws, ws;
    }

    /** One chunk leaves the front of the buffer. */
    ghost method Settle(fate: Fate)
      requires |fates| + |chunks| == |received| && |chunks| > 0 && chunks == received[|fates|..]
      modifies this`fates
      ensures fates == old(fates) + [fate] && chunks[1..] == received[|fates|..] && chunks[0] == received[|old(fates)|]
      ensures forall f :: Select(received, fates, f) == Select(received, old(fates), f) + if f == fate then [chunks[0]] else []
    {
      forall f ensures Select(received, fates + [fate], f) == Select(received, fates, f) + if f == fate then [received[|fates|]] else [] {
        SelectNext(received, fates, fate, f);
      }
      fates := fates + [fate];
    }

    /** Since the write number `start` all fates that were added are writes, and none but the last write was refused. */
    ghost predicate Writing(start: nat, begun: seq<Fate>, total: int)
      reads this`chunks, this`totalBuffered, this`received, this`fates, this`writeStream, this`sink, sink
    {
      && Conserved() && writeStream != null && writeStream == sink && (sink.ended ==> chunks == [])
      && Adds(begun, fates, Written) && |sink.written| - start == |fates| - |begun| && totalBuffered <= total
      && sink.AllAccepted(start, |sink.written| - 1)
    }

    /** The write stream takes the oldest chunk even when it answers no. */
    method WriteOldest(ghost start: nat, ghost begun: seq<Fate>, ghost total: int) returns (canWrite: bool)
      requires Writing(start, begun, total) && chunks != [] && sink.AllAccepted(start, |sink.written|)
      modifies this`chunks, this`totalBuffered, this`fates, sink`written
      ensures Writing(start, begun, total) && chunks == old(chunks)[1..] && |sink.written| > |old(sink.written)|
      ensures if canWrite then sink.AllAccepted(start, |sink.written|) else Refused()
    {
      canWrite := PassOldest();
    }

    method PassOldest() returns (canWrite: bool)
      requires Conserved() && chunks != [] && writeStream != null && writeStream == sink && !sink.ended
      modifies this`chunks, this`totalBuffered, this`fates, sink`written
      ensures Conserved() && chunks == old(chunks)[1..] && totalBuffered <= old(totalBuffered)
      ensures fates == old(fates) + [Written] && |sink.written| == |old(sink.written)| + 1
      ensures canWrite == sink.accepts(|old(sink.written)|)
    {
      var chunk := chunks[0];
      canWrite := writeStream.Write(chunk);
      Settle(Written);
      chunks := chunks[1..];
      totalBuffered := totalBuffered - |chunk|;
    }

    method FlushBuffer()
      requires Conserved() && !isWriting && writeStream == (if destroyed then null else sink) && !(Ended() && chunks != [])
      modifies this`chunks, this`totalBuffered, this`drainPending, this`isWriting, this`fates, if sink == null then {} else {sink}
      ensures Conserved() && !isWriting && totalBuffered <= old(totalBuffered)
      ensures Ended() == old(Ended())
      ensures writeStream == null || old(drainPending) ==> fates == old(fates) && drainPending == old(drainPending)
      ensures Adds(old(fates), fates, Written)
      ensures writeStream != null && !drainPending ==> chunks == []
      ensures drainPending && !old(drainPending) ==> |Sent()| > |old(Sent())| && Refused()
      ensures |Sent()| - |old(Sent())| == |fates| - |old(fates)|
      ensures writeStream != null && !old(drainPending) ==> sink.AllAccepted(|old(Sent())|, |sink.written| - 1)
    {
      if writeStream == null || drainPending || isWriting { return; }
      WriteWhileAccepted();
    }

    method WriteWhileAccepted()
      requires Conserved() && !isWriting && !drainPending && writeStream != null && writeStream == sink && (sink.ended ==> chunks == [])
      modifies this`chunks, this`totalBuffered, this`drainPending, this`isWriting, this`fates, sink`written
      ensures Writing(|old(sink.written)|, old(fates), old(totalBuffered)) && !isWriting
      ensures if drainPending then |sink.written| > |old(sink.written)| && Refused() else chunks == []
    {
      isWriting := true;
      ghost var start, begun, total := |sink.written|, fates, totalBuffered;
      while |chunks| > 0
        invariant isWriting && !drainPending && |sink.written| >= start
        invariant Writing(start, begun, total) && sink.AllAccepted(start, |sink.written|)
        decreases |chunks|
      {
        var canWrite := WriteOldest(start, begun, total);
        if !canWrite {
          drainPending, isWriting := true, false;
          return;
        }
      }
      isWriting := false;
    }

    method DropOldest()
      requires Conserved() && chunks != []
      modifies this`chunks, this`totalBuffered, this`fates
      ensures Conserved() && chunks == old(chunks)[1..] && fates == old(fates) + [Dropped]
    {
      var dropped := chunks[0];
      Settle(Dropped);
      chunks := chunks[1..];
      totalBuffered := totalBuffered - |dropped|;
    }

    method DropOldestChunks()
      requires Conserved() && chunks != []
      modifies this`chunks, this`totalBuffered, this`fates
      ensures Conserved()
      ensures Adds(old(fates), fates, Dropped) && |fates| == |old(fates)| + Excess(old(chunks), maxBufferSize)
      ensures chunks == old(chunks)[Excess(old(chunks), maxBufferSize)..] && chunks != []
    {
      ghost var n := 0;
      while 10 * totalBuffered > 9 * maxBufferSize && |chunks| > 1
        invariant Conserved() && chunks != []
        invariant n < |old(chunks)| && chunks == old(chunks)[n..] && Adds(old(fates), fates, Dropped) && |fates| == |old(fates)| + n
        invariant Excess(old(chunks), maxBufferSize) == n + Excess(chunks, maxBufferSize)
        decreases |chunks|
      {
        DropOldest();
        n := n + 1;
      }
    }

    method CheckBufferStatus()
      requires Conserved() && chunks != []
      modifies this`chunks, this`totalBuffered, this`fates
      ensures Conserved()
      ensures Adds(old(fates), fates, Dropped) && |fates| == |old(fates)| + Surplus(old(chunks), maxBufferSize)
      ensures chunks == old(chunks)[Surplus(old(chunks), maxBufferSize)..] && chunks != []
    {
      if totalBuffered >= maxBufferSize {
        DropOldestChunks();
      }
    }

    /**
     The buffer drops what must go, then writes what it can. The newest chunk is not among those
     dropped, and what stays buffered is bounded.
     */
    method Write(chunk: Chunk)
      requires Valid() && !finalCalled && !destroyed
      modifies this`chunks, this`totalBuffered, this`drainPending, this`isWriting, this`received, this`fates,
               if sink == null then {} else {sink}
      ensures Valid() && received == old(received) + [chunk]
      ensures totalBuffered <= maxBufferSize || totalBuffered <= |chunk|
      ensures var gone := Surplus(old(chunks) + [chunk], maxBufferSize);
        && |old(fates)| + gone <= |fates| && gone <= |old(chunks)|
        && Adds(old(fates), fates[..|old(fates)| + gone], Dropped)
        && Adds(fates[..|old(fates)| + gone], fates, Written)
        && (sink == null || old(drainPending) ==> |fates| == |old(fates)| + gone)
      ensures sink != null && !drainPending ==> chunks == []
      ensures drainPending && !old(drainPending) ==> |Sent()| > |old(Sent())| && Refused()
    {
      Take(chunk);
      ghost var dropped := fates;
      FlushBuffer();
      assert fates[..|dropped|] == dropped;
    }

    /** The first half of a write: the chunk is buffered, and what no longer fits is dropped. */
    method Take(chunk: Chunk)
      requires Conserved()
      modifies this`chunks, this`totalBuffered, this`received, this`fates
      ensures Conserved() && received == old(received) + [chunk]
      ensures totalBuffered <= maxBufferSize || totalBuffered <= |chunk|
      ensures var gone := Surplus(old(chunks) + [chunk], maxBufferSize);
        gone <= |old(chunks)| && Adds(old(fates), fates, Dropped) && |fates| == |old(fates)| + gone
    {
      Append(chunk);
      SurplusBounds(chunks, maxBufferSize);
      CheckBufferStatus();
    }

    method Append(chunk: Chunk)
      requires Conserved()
      modifies this`chunks, this`totalBuffered, this`received
      ensures Conserved() && received == old(received) + [chunk] && chunks == old(chunks) + [chunk]
    {
      SelectEarlier(received, [chunk], fates, Written);
      TotalConcat(chunks, [chunk]);
      received := received + [chunk];
      chunks := chunks + [chunk];
      totalBuffered := totalBuffered + |chunk|;
    }

    method OnDrain()
      requires Valid()
      modifies this`chunks, this`totalBuffered, this`drainPending, this`isWriting, this`fates, this`finishing,
               if sink == null then {} else {sink}
      ensures Valid()
      ensures Adds(old(fates), fates, Written)
      ensures writeStream != null && !drainPending ==> chunks == []
      ensures drainPending ==> |Sent()| > |old(Sent())| && Refused()
      ensures Ended() && !old(Ended()) ==> old(finishing) != null
      ensures old(finishing) != null && !drainPending ==> Ended()
    {
      drainPending := false;
      FlushBuffer();
      RetryFinish();
    }

    /** The listener that an attempt to finish leaves behind. */
    method RetryFinish()
      requires Valid()
      modifies this`chunks, this`totalBuffered, this`drainPending, this`isWriting, this`fates, this`finishing,
               if sink == null then {} else {sink}
      ensures Valid()
      ensures Adds(old(fates), fates, Written)
      ensures writeStream != null && (!old(drainPending) ==> old(chunks) == []) && !drainPending ==> chunks == []
      ensures drainPending ==> Refused() && if old(drainPending) then |Sent()| == |old(Sent())| else |Sent()| > |old(Sent())|
      ensures Ended() && !old(Ended()) ==> old(finishing) != null
      ensures old(finishing) != null && !drainPending ==> Ended()
    {
      if finishing != null {
        var stream := finishing;
        finishing := null;
        TryFinish(stream);
      }
    }

    method TryFinish(stream: WriteStream)
      requires Valid() && finishing == null && stream == sink && !Ended() && finalCalled
      modifies this`chunks, this`totalBuffered, this`drainPending, this`isWriting, this`fates, this`finishing, stream
      ensures Valid()
      ensures Adds(old(fates), fates, Written)
      ensures Ended() <==> !drainPending
      ensures Ended() ==> chunks == [] && totalBuffered == 0
      ensures drainPending ==> if old(drainPending) then |Sent()| == |old(Sent())| else |Sent()| > |old(Sent())| && Refused()
    {
      FlushBuffer();
      FinishWhenFlushed(stream);
    }

    method FinishWhenFlushed(stream: WriteStream)
      requires Valid() && finishing == null && stream == sink && !Ended() && finalCalled && (!drainPending ==> chunks == [])
      modifies this`finishing, stream`ended
      ensures Valid()
      ensures Ended() <==> !drainPending
    {
      if totalBuffered > 0 || drainPending || isWriting {
        finishing := stream;
        return;
      }
      stream.End();
    }

    method Final()
      requires Valid() && !finalCalled && !destroyed
      modifies this`chunks, this`totalBuffered, this`drainPending, this`isWriting, this`fates, this`finishing, this`finalCalled,
               if sink == null then {} else {sink}
      ensures Valid() && finalCalled
      ensures Adds(old(fates), fates, Written)
      ensures Ended() <==> sink != null && !drainPending
      ensures drainPending && !old(drainPending) ==> |Sent()| > |old(Sent())| && Refused()
    {
      finalCalled := true;
      if writeStream == null { return; }
      TryFinish(writeStream);
    }

    /** What is still buffered is settled as discarded. */
    ghost method DiscardRest()
      requires |fates| + |chunks| == |received|
      modifies this`fates
      ensures Adds(old(fates), fates, Discarded) && |fates| == |received|
      ensures forall fate :: fate == Written ==> Select(received, fates, fate) == Select(received, old(fates), fate)
    {
      ghost var rest := seq(|chunks|, _ => Discarded);
      SelectWithout(received, fates, rest, Written);
      fates := fates + rest;
    }

    method Destroy()
      requires Valid() && !destroyed
      modifies this`chunks, this`totalBuffered, this`writeStream, this`fates, this`destroyed
      ensures Valid() && destroyed && chunks == []
      ensures Adds(old(fates), fates, Discarded) && |fates| == |received|
    {
      DiscardRest();
      chunks := [];
      totalBuffered := 0;
      writeStream := null;
      destroyed := true;
    }
  }

  datatype Event = Connect | Receive(chunk: Chunk) | Drain | Finish | Destroy

  /** The chunks handed over before the stream was finished or destroyed. */
  ghost function Received(events: seq<Event>): seq<Chunk> {
    ReceivedFrom(events, 0)
  }

  ghost function ReceivedFrom(events: seq<Event>, i: nat): seq<Chunk>
    requires i <= |events|
    decreases |events| - i
  {
    if i == |events| || events[i].Finish? || events[i].Destroy? then []
    else (if events[i].Receive? then [events[i].chunk] else []) + ReceivedFrom(events, i + 1)
  }

  /**
   Any run: whatever the write stream answers and whenever it drains, the chunks received split in
   order into those settled, each with one fate, and those still buffered. What was written is what
   has that fate, and the end comes only after everything else. Once the connected stream was served,
   it holds chunks only while the last write is refused.
   */
  method Record(events: seq<Event>, maxBufferSize: nat, accepts: nat -> bool)
    returns (written: seq<Chunk>, buffered: seq<Chunk>, ended: bool, ghost fates: seq<Fate>)
    ensures |fates| + |buffered| == |Received(events)| && buffered == Received(events)[|fates|..]
    ensures written == Select(Received(events), fates, Written)
    ensures ended ==> buffered == []
    ensures ended && AllWritten(fates) ==> written == Received(events)
    ensures Served(events, |events|) && buffered != [] ==> written != [] && !accepts(|written| - 1)
  {
    var buffer := new BufferedWriteStream(maxBufferSize);
    var sink := new WriteStream(accepts);
    var connected, finished, destroyed := false, false, false;
    ghost var served := false;
    for i := 0 to |events|
      invariant fresh(buffer) && fresh(sink) && sink.accepts == accepts
      invariant Running(buffer, sink, connected, finished, destroyed, served)
      invariant (finished || destroyed <==> Over(events, i)) && (connected <==> Connected(events, i)) && (served <==> Served(events, i))
      invariant Received(events) == buffer.received + Rest(finished || destroyed, events, i)
    {
      RestStep(buffer.received, finished || destroyed, events, i);
      ServedStep(events, i);
      connected, finished, destroyed, served := Play(buffer, sink, connected, finished, destroyed, served, events[i]);
    }
    written, buffered, ended, fates := sink.written, buffer.chunks, sink.ended, buffer.fates;
    assert Received(events) == buffer.received;
    NothingLost(buffer.received, fates);
  }

  ghost predicate Over(events: seq<Event>, n: nat)
    requires n <= |events|
  {
    exists i :: 0 <= i < n && (events[i].Finish? || events[i].Destroy?)
  }

  /** Event `i` connects a stream to a buffer that is not over. */
  ghost predicate Connects(events: seq<Event>, i: nat)
    requires i < |events|
  {
    events[i].Connect? && !Over(events, i)
  }

  ghost predicate Connected(events: seq<Event>, n: nat)
    requires n <= |events|
  {
    exists i :: 0 <= i < n && Connects(events, i)
  }

  /** Something came after a stream was connected. */
  ghost predicate Served(events: seq<Event>, n: nat)
    requires n <= |events|
  {
    exists i :: 0 <= i < n && !events[i].Connect? && Connected(events, i)
  }

  lemma ServedStep(events: seq<Event>, n: nat)
    requires n < |events|
    ensures Over(events, n + 1) <==> Over(events, n) || events[n].Finish? || events[n].Destroy?
    ensures Connected(events, n + 1) <==> Connected(events, n) || (events[n].Connect? && !Over(events, n))
    ensures Served(events, n + 1) <==> Served(events, n) || (!events[n].Connect? && Connected(events, n))
  {
    assert Connects(events, n) <==> events[n].Connect? && !Over(events, n);
  }

  /** What is still to be received, unless the stream is over. */
  ghost function Rest(over: bool, events: seq<Event>, i: nat): seq<Chunk>
    requires i <= |events|
  {
    if over then [] else ReceivedFrom(events, i)
  }

  lemma RestStep(heard: seq<Chunk>, over: bool, events: seq<Event>, i: nat)
    requires i < |events|
    ensures var e := events[i];
      heard + Rest(over, events, i)
        == heard + (if e.Receive? && !over then [e.chunk] else []) + Rest(over || e.Finish? || e.Destroy?, events, i + 1)
  {
    assert heard + [] + [] == heard;
    if !over && events[i].Receive? {
      assert heard + ([events[i].chunk] + Rest(over, events, i + 1)) == heard + [events[i].chunk] + Rest(over, events, i + 1);
    } else {
      assert heard + [] == heard && [] + Rest(over, events, i + 1) == Rest(over, events, i + 1);
    }
  }

  ghost predicate Running(buffer: BufferedWriteStream, sink: WriteStream, connected: bool, finished: bool, destroyed: bool, served: bool)
    reads buffer, sink, buffer.sink
  {
    && buffer.Valid()
    && (if connected then buffer.sink == sink else buffer.sink == null && sink.written == [] && !sink.ended)
    && buffer.finalCalled == finished
    && buffer.destroyed == destroyed
    && (served ==> connected) && (connected && finished ==> served)
    && (served && buffer.chunks != [] ==> buffer.Refused())
  }

  method Play(buffer: BufferedWriteStream, sink: WriteStream, connected: bool, finished: bool, destroyed: bool, ghost served: bool,
              event: Event)
    returns (nowConnected: bool, nowFinished: bool, nowDestroyed: bool, ghost nowServed: bool)
    requires Running(buffer, sink, connected, finished, destroyed, served)
    modifies buffer, sink
    ensures Running(buffer, sink, nowConnected, nowFinished, nowDestroyed, nowServed)
    ensures nowConnected == (connected || (event.Connect? && !finished && !destroyed))
    ensures nowFinished == (finished || (event.Finish? && !destroyed)) && nowDestroyed == (destroyed || event.Destroy?)
    ensures nowServed == (served || (connected && !event.Connect?))
    ensures buffer.received == old(buffer.received) + if event.Receive? && !finished && !destroyed then [event.chunk] else []
  {
    nowConnected, nowFinished, nowDestroyed, nowServed := connected, finished, destroyed, served || (connected && !event.Connect?);
    match event {
      case Connect =>
        if !connected && !finished && !destroyed {
          buffer.SetWriteStream(sink);
          nowConnected := true;
        }
      case Receive(chunk) =>
        if !finished && !destroyed { buffer.Write(chunk); }
      case Drain => buffer.OnDrain();
      case Finish =>
        if !finished && !destroyed {
          buffer.Final();
          nowFinished := true;
        }
      case Destroy =>
        if !destroyed {
          buffer.Destroy();
          nowDestroyed := true;
        }
    }
  }
}
