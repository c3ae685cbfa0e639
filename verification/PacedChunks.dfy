/**
 A transport stream cut into chunks that are due at the time stamps of its video
 (`pacedTransportStreamChunks` in client/e2e/support/syntheticCaptionStream.ts). A byte missing from
 a short last packet reads as zero, but is not equal to zero.
 */
module PacedChunks {
  import opened Options
  import opened TransportBits

  const PACKET_SIZE := 188
  const PTS_CLOCK := 90000.0

  function At(packet: Bytes, i: int): bv8 {
    if 0 <= i < |packet| then packet[i] else 0
  }

  predicate IsZero(packet: Bytes, i: int) {
    0 <= i < |packet| && packet[i] == 0
  }

  function PacketPid(packet: Bytes): bv16 {
    ((At(packet, 1) & 0x1f) as bv16 << 8) | At(packet, 2) as bv16
  }

  predicate StartsUnit(packet: Bytes) {
    At(packet, 1) & 0x40 != 0
  }

  /** Past the end of the packet if the length of the adaptation field is missing. */
  function PayloadOffset(packet: Bytes): int {
    var adaptation := (At(packet, 3) & 0x30) >> 4;
    if adaptation == 2 || adaptation == 3 then if |packet| > 4 then 5 + packet[4] as int else |packet| else 4
  }

  predicate IsVideo(packet: Bytes) {
    var pes := PayloadOffset(packet);
    IsZero(packet, pes) && IsZero(packet, pes + 1) && At(packet, pes + 3) & 0xf0 == 0xe0
  }

  predicate HasPts(packet: Bytes) {
    At(packet, PayloadOffset(packet) + 7) & 0x80 != 0
  }

  function Pts(packet: Bytes): int {
    var o := PayloadOffset(packet) + 9;
    ReadPts(At(packet, o), At(packet, o + 1), At(packet, o + 2), At(packet, o + 3), At(packet, o + 4)) as int
  }

  function Min(a: int, b: int): int { if a < b then a else b }

  function Packet(stream: Bytes, k: nat): Bytes
    requires PACKET_SIZE * k < |stream|
  {
    stream[PACKET_SIZE * k..Min(PACKET_SIZE * (k + 1), |stream|)]
  }

  /** The PID of the first video unit among the first `n` packets. */
  function VideoPid(stream: Bytes, n: nat): Option<bv16>
    requires PACKET_SIZE * n < |stream| + PACKET_SIZE
  {
    if n == 0 then None
    else
      var before, packet := VideoPid(stream, n - 1), Packet(stream, n - 1);
      if before.None? && PacketPid(packet) != 0 && StartsUnit(packet) && IsVideo(packet) then Some(PacketPid(packet)) else before
  }

  /** The time stamp of packet `k`, if it starts a unit of the video found by then. */
  function Stamp(stream: Bytes, k: nat): Option<int>
    requires PACKET_SIZE * k < |stream|
  {
    var packet := Packet(stream, k);
    if VideoPid(stream, k + 1) == Some(PacketPid(packet)) && StartsUnit(packet) && HasPts(packet) then Some(Pts(packet)) else None
  }

  function FirstStamp(stream: Bytes, n: nat): Option<int>
    requires PACKET_SIZE * n < |stream| + PACKET_SIZE
  {
    if n == 0 then None
    else if FirstStamp(stream, n - 1).Some? then FirstStamp(stream, n - 1)
    else Stamp(stream, n - 1)
  }

  /** The seconds from the first stamp to the stamp of packet `k`. */
  function Seconds(stream: Bytes, k: nat): Option<real>
    requires PACKET_SIZE * k < |stream|
  {
    if Stamp(stream, k).None? then None
    else Some((Stamp(stream, k).value - FirstStamp(stream, k + 1).value) as real / PTS_CLOCK)
  }

  // What is read, in the bytes themselves

  lemma PacketBytes(stream: Bytes, k: nat)
    requires 188 * k + 188 <= |stream|
    ensures Packet(stream, k) == stream[188 * k..188 * k + 188]
  {
  }

  lemma AdaptationBits(control: bv8)
    ensures (control & 0x30) >> 4 == 2 || (control & 0x30) >> 4 == 3 <==> control & 0x20 != 0
  {
  }

  /** The payload of a whole packet starts behind the adaptation field, if there is one. */
  lemma PayloadStarts(p: Bytes)
    requires |p| == 188
    ensures PayloadOffset(p) == if p[3] & 0x20 == 0 then 4 else 5 + p[4] as int
    ensures PacketPid(p) == ((p[1] & 0x1f) as bv16 << 8) | p[2] as bv16
    ensures StartsUnit(p) <==> p[1] & 0x40 != 0
  {
    AdaptationBits(p[3]);
  }

  /** The fields of a unit in the payload, if they are in the packet. */
  lemma UnitFields(p: Bytes)
    requires PayloadOffset(p) + 14 <= |p|
    ensures var unit := p[PayloadOffset(p)..];
      && (IsVideo(p) <==> unit[0] == 0 && unit[1] == 0 && unit[3] & 0xf0 == 0xe0)
      && (HasPts(p) <==> unit[7] & 0x80 != 0)
      && Pts(p) == ReadPts(unit[9], unit[10], unit[11], unit[12], unit[13]) as int
  {
  }

  /** The video is the one of the first unit of video that starts outside the table of programs. */
  lemma {:induction false} VideoPidIsFirst(stream: Bytes, n: nat, pid: bv16)
    requires InStream(stream, n)
    ensures VideoPid(stream, n) == Some(pid) <==> exists k: nat :: k < n && VideoFrom(stream, k, pid)
  {
    if n > 0 {
      VideoPidIsFirst(stream, n - 1, pid);
      if VideoPid(stream, n - 1).Some? {
        VideoPidIsFirst(stream, n - 1, VideoPid(stream, n - 1).value);
      } else {
        NoVideo(stream, n - 1);
      }
      if VideoFrom(stream, n - 1, pid) { assert VideoPid(stream, n) == Some(pid); }
    }
  }

  ghost predicate StartsVideo(stream: Bytes, k: nat) {
    InStream(stream, k + 1) && var p := Packet(stream, k); PacketPid(p) != 0 && StartsUnit(p) && IsVideo(p)
  }

  ghost predicate VideoFrom(stream: Bytes, k: nat, pid: bv16) {
    StartsVideo(stream, k) && PacketPid(Packet(stream, k)) == pid && forall j: nat :: j < k ==> !StartsVideo(stream, j)
  }

  lemma {:induction false} NoVideo(stream: Bytes, n: nat)
    requires InStream(stream, n)
    ensures VideoPid(stream, n).None? <==> forall k: nat :: k < n ==> !StartsVideo(stream, k)
  {
    if n > 0 {
      NoVideo(stream, n - 1);
      assert StartsVideo(stream, n - 1) || VideoPid(stream, n) == VideoPid(stream, n - 1);
    }
  }

  ghost predicate NoStamp(stream: Bytes, k: nat) {
    InStream(stream, k + 1) && Stamp(stream, k).None?
  }

  ghost predicate FirstStamped(stream: Bytes, k: nat, stamp: int) {
    && InStream(stream, k + 1) && Stamp(stream, k) == Some(stamp)
    && forall j: nat :: j < k ==> NoStamp(stream, j)
  }

  lemma {:induction false} FirstStampIsFirst(stream: Bytes, n: nat)
    requires InStream(stream, n)
    ensures if FirstStamp(stream, n).None? then forall k: nat :: k < n ==> NoStamp(stream, k)
            else exists k: nat :: k < n && FirstStamped(stream, k, FirstStamp(stream, n).value)
  {
    if n > 0 {
      FirstStampIsFirst(stream, n - 1);
      if FirstStamp(stream, n - 1).None? && FirstStamp(stream, n).Some? {
        assert FirstStamped(stream, n - 1, FirstStamp(stream, n).value);
      }
    }
  }

  /** Times count from the first stamp, and stamps that are 90000 apart are one second apart. */
  lemma SecondsCount(stream: Bytes, first: nat, k: nat, stamp: int)
    requires FirstStamped(stream, first, stamp) && first <= k && InStream(stream, k + 1)
    ensures Seconds(stream, k).Some? <==> Stamp(stream, k).Some?
    ensures Seconds(stream, k).Some? ==> Seconds(stream, k).value * 90000.0 == (Stamp(stream, k).value - stamp) as real
  {
    FirstStampIsFirst(stream, k + 1);
    var v := FirstStamp(stream, k + 1);
    if v.Some? {
      var j: nat :| j < k + 1 && FirstStamped(stream, j, v.value);
      assert !NoStamp(stream, j) && !NoStamp(stream, first);
    }
  }

  datatype Chunk = Chunk(mediaSeconds: real, bytes: Bytes)

  function Flatten(chunks: seq<Chunk>): Bytes {
    if chunks == [] then [] else Flatten(chunks[..|chunks| - 1]) + chunks[|chunks| - 1].bytes
  }

  /** No stamp of the packets from `from` on, before `to`, is later than the given time. */
  ghost predicate NoneLater(stream: Bytes, from: nat, to: nat, time: real)
    requires PACKET_SIZE * to < |stream| + PACKET_SIZE
  {
    forall k :: from <= k < to ==> Seconds(stream, k).None? || Seconds(stream, k).value <= time
  }

  /** The time of the chunk that starts at packet `start`: nought at the beginning, else the stamp there. */
  ghost predicate StartsAt(stream: Bytes, start: nat, time: real) {
    if start == 0 then time == 0.0 else PACKET_SIZE * start < |stream| && Seconds(stream, start) == Some(time)
  }

  ghost predicate Increasing(chunks: seq<Chunk>) {
    forall i, j :: 0 <= i < j < |chunks| ==> chunks[i].mediaSeconds < chunks[j].mediaSeconds
  }

  /** Packet `k` begins in the stream, or the stream ends there. */
  ghost predicate InStream(stream: Bytes, k: nat) {
    PACKET_SIZE * k < |stream| + PACKET_SIZE
  }

  /** Each finished chunk holds the packets from one start to the next, due at its own time and not later. */
  ghost predicate Cut(stream: Bytes, chunks: seq<Chunk>, starts: seq<nat>) {
    && |starts| == |chunks| + 1
    && (forall i :: 0 <= i < |starts| ==> InStream(stream, starts[i]))
    && (forall i :: 0 <= i < |chunks| ==> Holds(stream, chunks[i], starts[i], starts[i + 1]))
  }

  ghost predicate Holds(stream: Bytes, chunk: Chunk, from: nat, to: nat)
    requires InStream(stream, to)
  {
    && from < to && StartsAt(stream, from, chunk.mediaSeconds) && NoneLater(stream, from, to, chunk.mediaSeconds)
    && PACKET_SIZE * from <= Min(PACKET_SIZE * to, |stream|)
    && chunk.bytes == stream[PACKET_SIZE * from..Min(PACKET_SIZE * to, |stream|)]
  }

  /** Before packet `k`: the chunk that is being filled starts at the last start, due at `time`. */
  ghost predicate Cutting(stream: Bytes, chunks: seq<Chunk>, starts: seq<nat>, k: nat, time: real) {
    && InStream(stream, k) && Cut(stream, chunks, starts) && starts[0] == 0
    && (starts[|chunks|] < k || k == 0 == starts[|chunks|])
    && PACKET_SIZE * starts[|chunks|] <= |stream| && Flatten(chunks) == stream[..PACKET_SIZE * starts[|chunks|]]
    && StartsAt(stream, starts[|chunks|], time) && NoneLater(stream, starts[|chunks|], k, time)
    && Increasing(chunks) && (forall i :: 0 <= i < |chunks| ==> chunks[i].mediaSeconds < time)
    && (if chunks == [] then time == 0.0 else chunks[0].mediaSeconds == 0.0)
  }

  lemma Begins(stream: Bytes)
    ensures Cutting(stream, [], [0], 0, 0.0) && Knows(stream, 0, None, None)
  {
  }

  lemma Goes(stream: Bytes, chunks: seq<Chunk>, starts: seq<nat>, k: nat, time: real)
    requires Cutting(stream, chunks, starts, k, time) && PACKET_SIZE * k < |stream|
    requires Seconds(stream, k).None? || Seconds(stream, k).value <= time
    ensures Cutting(stream, chunks, starts, k + 1, time)
  {
  }

  /** A chunk is closed: all the facts about the finished chunks, with one more. */
  lemma Closes(stream: Bytes, chunks: seq<Chunk>, starts: seq<nat>, k: nat, time: real, end: nat)
    requires Cutting(stream, chunks, starts, k, time) && k > 0
    requires PACKET_SIZE * starts[|chunks|] <= end == Min(PACKET_SIZE * k, |stream|)
    ensures var more := chunks + [Chunk(time, stream[PACKET_SIZE * starts[|chunks|]..end])];
      && Cut(stream, more, starts + [k]) && Increasing(more) && more[0].mediaSeconds == 0.0
      && Flatten(more) == stream[..end]
  {
    var start := PACKET_SIZE * starts[|chunks|];
    var last := Chunk(time, stream[start..end]);
    var more, all := chunks + [last], starts + [k];
    assert more[..|chunks|] == chunks;
    assert stream[..start] + stream[start..end] == stream[..end];
    forall i | 0 <= i < |more| ensures Holds(stream, more[i], all[i], all[i + 1]) {
      if i < |chunks| { assert Holds(stream, chunks[i], starts[i], starts[i + 1]); }
    }
  }

  lemma NotAtOnce(stream: Bytes)
    requires stream != []
    ensures Seconds(stream, 0).None? || Seconds(stream, 0).value == 0.0
  {
    assert FirstStamp(stream, 0) == None;
  }

  lemma Breaks(stream: Bytes, chunks: seq<Chunk>, starts: seq<nat>, k: nat, time: real)
    requires Cutting(stream, chunks, starts, k, time) && PACKET_SIZE * k < |stream|
    requires Seconds(stream, k).Some? && Seconds(stream, k).value > time
    ensures k > 0 && starts[|chunks|] < k
    ensures Cutting(stream, chunks + [Chunk(time, stream[PACKET_SIZE * starts[|chunks|]..PACKET_SIZE * k])], starts + [k],
                    k + 1, Seconds(stream, k).value)
  {
    NotFirst(stream, chunks, starts, k, time);
    Closes(stream, chunks, starts, k, time, PACKET_SIZE * k);
    Opens(stream, k);
    var more := chunks + [Chunk(time, stream[PACKET_SIZE * starts[|chunks|]..PACKET_SIZE * k])];
    assert (starts + [k])[|more|] == k;
    assert forall i :: 0 <= i < |more| ==> more[i].mediaSeconds < Seconds(stream, k).value;
  }

  lemma NotFirst(stream: Bytes, chunks: seq<Chunk>, starts: seq<nat>, k: nat, time: real)
    requires Cutting(stream, chunks, starts, k, time) && PACKET_SIZE * k < |stream|
    requires Seconds(stream, k).Some? && Seconds(stream, k).value > time
    ensures k > 0 && starts[|chunks|] < k
  {
    if k == 0 { NotAtOnce(stream); }
  }

  lemma Opens(stream: Bytes, k: nat)
    requires k > 0 && PACKET_SIZE * k < |stream| && Seconds(stream, k).Some?
    ensures InStream(stream, k + 1)
    ensures StartsAt(stream, k, Seconds(stream, k).value) && NoneLater(stream, k, k + 1, Seconds(stream, k).value)
  {
  }

  /** What the first `k` packets have shown. */
  ghost predicate Knows(stream: Bytes, k: nat, videoPid: Option<bv16>, firstPts: Option<int>) {
    && (forall n :: n == k && InStream(stream, n) ==> videoPid == VideoPid(stream, n))
    && (forall n :: n == k && InStream(stream, n) ==> firstPts == FirstStamp(stream, n))
  }

  method ReadPacket(ghost stream: Bytes, ghost k: nat, packet: Bytes, videoPid: Option<bv16>, firstPts: Option<int>)
    returns (video: Option<bv16>, first: Option<int>, seconds: Option<real>)
    requires PACKET_SIZE * k < |stream| && packet == Packet(stream, k)
    requires Knows(stream, k, videoPid, firstPts)
    ensures Knows(stream, k + 1, video, first) && seconds == Seconds(stream, k)
  {
    assert videoPid == VideoPid(stream, k) && firstPts == FirstStamp(stream, k);
    var pid := PacketPid(packet);
    video, first, seconds := videoPid, firstPts, None;
    if videoPid.None? && pid != 0 && StartsUnit(packet) && IsVideo(packet) { video := Some(pid); }
    if video != Some(pid) || !StartsUnit(packet) { return; }
    if !HasPts(packet) { return; }
    var pts := Pts(packet);
    if first.None? { first := Some(pts); }
    seconds := Some((pts - first.value) as real / PTS_CLOCK);
  }

  /** A packet begins a new chunk exactly if its stamp is later than the chunk that is open. */
  method Place(stream: Bytes, offset: nat, seconds: Option<real>, chunks: seq<Chunk>, mediaSeconds: real, chunkStart: nat,
               ghost starts: seq<nat>, ghost k: nat)
    returns (more: seq<Chunk>, time: real, start: nat, ghost allStarts: seq<nat>)
    requires Cutting(stream, chunks, starts, k, mediaSeconds) && chunkStart == PACKET_SIZE * starts[|chunks|]
    requires offset == PACKET_SIZE * k < |stream| && seconds == Seconds(stream, k)
    ensures Cutting(stream, more, allStarts, k + 1, time) && start == PACKET_SIZE * allStarts[|more|]
  {
    if seconds.Some? && seconds.value > mediaSeconds {
      Breaks(stream, chunks, starts, k, mediaSeconds);
      return chunks + [Chunk(mediaSeconds, stream[chunkStart..offset])], seconds.value, offset, starts + [k];
    }
    Goes(stream, chunks, starts, k, mediaSeconds);
    return chunks, mediaSeconds, chunkStart, starts;
  }

  /** The loop over the packets; the chunk from `chunkStart` on is still open. */
  method CutChunks(stream: Bytes)
    returns (chunks: seq<Chunk>, mediaSeconds: real, chunkStart: nat, ghost starts: seq<nat>, ghost packets: nat)
    ensures Cutting(stream, chunks, starts, packets, mediaSeconds) && chunkStart == PACKET_SIZE * starts[|chunks|]
    ensures |stream| <= PACKET_SIZE * packets
  {
    chunks, starts, packets := [], [0], 0;
    var firstPts: Option<int>, videoPid: Option<bv16> := None, None;
    mediaSeconds, chunkStart := 0.0, 0;
    var offset := 0;
    Begins(stream);
    while offset < |stream|
      invariant offset == PACKET_SIZE * packets
      invariant Cutting(stream, chunks, starts, packets, mediaSeconds) && chunkStart == PACKET_SIZE * starts[|chunks|]
      invariant Knows(stream, packets, videoPid, firstPts)
      decreases |stream| - offset
    {
      var packet := stream[offset..Min(offset + PACKET_SIZE, |stream|)];
      var seconds;
      videoPid, firstPts, seconds := ReadPacket(stream, packets, packet, videoPid, firstPts);
      chunks, mediaSeconds, chunkStart, starts := Place(stream, offset, seconds, chunks, mediaSeconds, chunkStart, starts, packets);
      offset := offset + PACKET_SIZE;
      packets := packets + 1;
    }
  }

  /**
   The chunks put together are the stream, their times increase from nought, and no chunk holds a
   video stamp that is later than its time.
   */
  method PacedTransportStreamChunks(stream: Bytes) returns (chunks: seq<Chunk>, ghost starts: seq<nat>, ghost packets: nat)
    ensures Flatten(chunks) == stream && Increasing(chunks)
    ensures chunks != [] && chunks[0].mediaSeconds == 0.0
    ensures InStream(stream, packets) && |stream| <= PACKET_SIZE * packets
    ensures stream != [] ==> Cut(stream, chunks, starts) && starts[0] == 0 && starts[|chunks|] == packets
  {
    var mediaSeconds, chunkStart;
    chunks, mediaSeconds, chunkStart, starts, packets := CutChunks(stream);
    if packets > 0 { Closes(stream, chunks, starts, packets, mediaSeconds, |stream|); }
    assert stream[..|stream|] == stream;
    chunks := chunks + [Chunk(mediaSeconds, stream[chunkStart..])];
    starts := starts + [packets];
  }
}
