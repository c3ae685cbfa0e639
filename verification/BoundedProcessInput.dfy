/**
 The bounded queue of src/lib/BoundedProcessInput.ts in front of a child process. The producer is
 never paused: if the child falls too far behind, only the child is given up.
 */
module BoundedProcessInput {
  import opened Streams

  class BoundedProcessInput {
    const input: WriteStream
    const maxBufferSize: nat
    var queue: seq<Chunk>
    var queuedBytes: int
    var isBackpressured: bool
    var isEndRequested: bool
    var isFinished: bool

    /** What the producer handed over before it asked for the end, and how often failure was reported. */
    ghost var accepted: seq<Chunk>
    ghost var failures: nat

    /** While it is running: nothing is lost, nothing is sent out of order, and the queue is bounded. */
    ghost predicate Running()
      reads this, input
    {
      && !isFinished && !input.ended && !input.destroyed && failures == 0
      && input.written + queue == accepted
      && queuedBytes == Total(queue) <= maxBufferSize
      && (queue != [] ==> isBackpressured)
      && (isEndRequested ==> isBackpressured)
      && (isBackpressured ==> Refused())
    }

    /** The last write was answered with no. */
    ghost predicate Refused()
      reads input
    {
      input.written != [] && !input.accepts(|input.written| - 1)
    }

    /** Afterwards the input was either ended with everything written, or destroyed. */
    ghost predicate Over()
      reads this, input
    {
      && isFinished && queue == [] && queuedBytes == 0
      && input.written <= accepted
      && input.ended != input.destroyed
      && (input.ended ==> isEndRequested && input.written == accepted && failures == 0)
      && failures <= 1
    }

    ghost predicate Valid()
      reads this, input
    {
      Running() || Over()
    }

    constructor (input: WriteStream, maxBufferSize: nat)
      requires input.written == [] && !input.ended && !input.destroyed
      ensures Running() && this.input == input && this.maxBufferSize == maxBufferSize
      ensures accepted == [] && !isEndRequested && !isBackpressured
    {
      this.input, this.maxBufferSize := input, maxBufferSize;
      queue, queuedBytes := [], 0;
      isBackpressured, isEndRequested, isFinished := false, false, false;
      accepted, failures := [], 0;
    }

    /**
     A chunk goes straight to an idle child, else to the queue; the child is given up exactly if the
     queue would then exceed the limit.
     */
    method Write(chunk: Chunk)
      requires Valid()
      modifies this, input
      ensures Valid() && isEndRequested == old(isEndRequested)
      ensures old(isFinished || isEndRequested) ==>
                accepted == old(accepted) && queue == old(queue) && input.written == old(input.written) && failures == old(failures)
      ensures !old(isFinished || isEndRequested) ==> accepted == old(accepted) + [chunk]
      ensures !old(isFinished || isEndRequested || isBackpressured)
          ==> input.written == old(input.written) + [chunk] && isBackpressured == !input.accepts(|old(input.written)|)
      ensures old(isBackpressured) ==> input.written == old(input.written) && isBackpressured
      ensures isFinished != old(isFinished)
         <==> !old(isFinished || isEndRequested) && old(isBackpressured) && old(queuedBytes) + |chunk| > maxBufferSize
      ensures failures == old(failures) + if isFinished != old(isFinished) then 1 else 0
      ensures input.ended == old(input.ended)
    {
      if isFinished || isEndRequested { return; }
      accepted := accepted + [chunk];
      if !isBackpressured && |queue| == 0 {
        var ok := input.Write(chunk);
        isBackpressured := !ok;
        return;
      }
      TotalConcat(queue, [chunk]);
      queue := queue + [chunk];
      queuedBytes := queuedBytes + |chunk|;
      if queuedBytes > maxBufferSize { Fail(); }
    }

    method End()
      requires Valid()
      modifies this, input
      ensures Valid() && accepted == old(accepted) && failures == old(failures)
      ensures isEndRequested == (old(isEndRequested) || !old(isFinished)) && isFinished == (old(isFinished) || input.ended)
      ensures input.written == old(input.written)
      ensures input.ended <==> old(input.ended) || !old(isFinished || isEndRequested || isBackpressured)
    {
      if isFinished || isEndRequested { return; }
      isEndRequested := true;
      EndWhenDrained();
    }

    method Destroy()
      requires Valid()
      modifies this, input
      ensures Over() && accepted == old(accepted) && failures == old(failures)
      ensures input.written == old(input.written) && input.ended == old(input.ended) && isEndRequested == old(isEndRequested)
    {
      if isFinished { return; }
      isFinished := true;
      queue, queuedBytes := [], 0;
      input.Destroy();
    }

    /** The child takes queued chunks until it asks for a pause again. */
    method OnDrain()
      requires Valid()
      modifies this, input
      ensures Valid() && accepted == old(accepted) && failures == old(failures) && isEndRequested == old(isEndRequested)
      ensures old(isFinished) ==> input.written == old(input.written) && input.ended == old(input.ended)
      ensures !old(isFinished) ==> old(input.written) <= input.written && (isBackpressured || queue == [])
      ensures !old(isFinished) && isBackpressured ==> |input.written| > |old(input.written)| && !input.accepts(|input.written| - 1)
      ensures input.AllAccepted(|old(input.written)|, |input.written| - 1)
      ensures input.ended <==> old(input.ended) || (!old(isFinished) && isEndRequested && !isBackpressured)
      ensures isFinished == (old(isFinished) || input.ended)
    {
      if isFinished { return; }
      isBackpressured := false;
      while |queue| > 0 && !isBackpressured
        invariant !isFinished && !input.ended && !input.destroyed && failures == 0
        invariant input.written + queue == accepted && queuedBytes == Total(queue) <= maxBufferSize
        invariant accepted == old(accepted) && failures == old(failures) && isEndRequested == old(isEndRequested)
        invariant old(input.written) <= input.written
        invariant isBackpressured ==> |input.written| > |old(input.written)| && !input.accepts(|input.written| - 1)
        invariant input.AllAccepted(|old(input.written)|, |input.written| - if isBackpressured then 1 else 0)
        decreases |queue|
      {
        var chunk := queue[0];
        assert input.written + queue == (input.written + [chunk]) + queue[1..];
        queue := queue[1..];
        queuedBytes := queuedBytes - |chunk|;
        var ok := input.Write(chunk);
        isBackpressured := !ok;
      }
      EndWhenDrained();
    }

    method OnInputError()
      requires Valid()
      modifies this, input
      ensures Over() && accepted == old(accepted) && input.ended == old(input.ended) && input.written == old(input.written)
      ensures failures == (old(failures) + if old(isFinished) then 0 else 1) && isEndRequested == old(isEndRequested)
    {
      Fail();
    }

    method EndWhenDrained()
      requires !isFinished && !input.ended && !input.destroyed && failures == 0
      requires input.written + queue == accepted && queuedBytes == Total(queue) <= maxBufferSize && (queue != [] ==> isBackpressured)
      requires isBackpressured ==> Refused()
      modifies this`isFinished, input`ended
      ensures Valid()
      ensures input.ended <==> isEndRequested && !isBackpressured
      ensures isFinished <==> input.ended
    {
      if !isEndRequested || isBackpressured || |queue| > 0 { return; }
      isFinished := true;
      input.End();
    }

    method Fail()
      requires Over() || (!isFinished && !input.ended && !input.destroyed && failures == 0 && input.written <= accepted)
      modifies this`isFinished, this`queue, this`queuedBytes, this`failures, input`destroyed
      ensures Over() && failures == old(failures) + if old(isFinished) then 0 else 1
    {
      if isFinished { return; }
      isFinished := true;
      queue, queuedBytes := [], 0;
      input.Destroy();
      failures := failures + 1;
    }
  }

  datatype Event = Write(chunk: Chunk) | End | Destroy | Drain | InputError

  ghost predicate Fed(process: BoundedProcessInput, events: seq<Event>, i: nat)
    requires i <= |events|
    reads process, process.input
  {
    && process.Valid()
    && process.accepted <= HandedBefore(events, i)
    && (process.isEndRequested ==> End in events[..i])
    && (!process.isFinished ==> (End in events[..i] ==> process.isEndRequested) && process.accepted == HandedBefore(events, i))
    && (process.input.ended ==> process.accepted == HandedBefore(events, i))
    && (process.isFinished && !process.input.ended ==> process.failures == 1 || Destroy in events[..i])
  }

  method Take(process: BoundedProcessInput, ghost events: seq<Event>, ghost i: nat, event: Event)
    requires i < |events| && event == events[i] && Fed(process, events, i)
    modifies process, process.input
    ensures Fed(process, events, i + 1)
  {
    assert events[..i + 1] == events[..i] + [events[i]];
    match event {
      case Write(chunk) => process.Write(chunk);
      case End => process.End();
      case Destroy => process.Destroy();
      case Drain => process.OnDrain();
      case InputError => process.OnInputError();
    }
  }

  /**
   Any run, whenever the child drains or fails: what the child got is the beginning of what was
   handed over, and all of it once the input was ended or while nothing failed. Chunks wait only while
   the last write is refused.
   */
  method Feed(events: seq<Event>, maxBufferSize: nat, accepts: nat -> bool)
    returns (written: seq<Chunk>, queued: seq<Chunk>, ended: bool, ghost accepted: seq<Chunk>, ghost failures: nat)
    ensures written + queued <= accepted <= Handed(events)
    ensures Total(queued) <= maxBufferSize
    ensures ended ==> written == accepted == Handed(events) && failures == 0
    ensures failures <= 1
    ensures failures == 0 && Destroy !in events ==> accepted == Handed(events) == written + queued
    ensures queued != [] ==> written != [] && !accepts(|written| - 1)
  {
    var input := new WriteStream(accepts);
    var process := new BoundedProcessInput(input, maxBufferSize);
    for i := 0 to |events|
      invariant fresh(process) && fresh(input) && process.input == input && process.maxBufferSize == maxBufferSize
      invariant input.accepts == accepts
      invariant Fed(process, events, i)
    {
      Take(process, events, i, events[i]);
    }
    assert events[..|events|] == events;
    written, queued, ended := input.written, process.queue, input.ended;
    accepted, failures := process.accepted, process.failures;
  }

  /** The chunks handed over before the first end. */
  ghost function HandedBefore(events: seq<Event>, n: nat): seq<Chunk>
    requires n <= |events|
  {
    if n == 0 then []
    else HandedBefore(events, n - 1) + if events[n - 1].Write? && End !in events[..n - 1] then [events[n - 1].chunk] else []
  }

  ghost function Handed(events: seq<Event>): seq<Chunk> {
    HandedBefore(events, |events|)
  }
}
