/**
 What the reader of a growing file in src/lib/TailStream.ts does. `Step` says it for each callback of a
 file operation and of a timer; what is in flight is part of the state, so callbacks may come in any
 order. A callback that brings no value brings an error.
 */
module TailReading {
  import opened Options

  datatype ReadRequest = ReadRequest(fd: int, start: nat, size: nat, end: nat)

  /** A call for the size of the file; `length` is what it was when the call was made. */
  datatype SizeCall = SizeCall(fd: int, length: nat)

  /** A call for the size, to be compared with the size that was read to the end. */
  datatype CheckCall = CheckCall(size: nat, length: nat)

  /** The calls made to the file system. */
  datatype Call =
    | OpenCall
    | FstatCall(fd: int)
    | ReadCall(fd: int, start: nat, size: nat)
    | StatCall
    | CloseCall(fd: int)

  datatype State = State(
    content: seq<bv8>, start: nat, offset: nat, isClosed: bool,
    readInProgress: bool, getFdInProgress: bool, openRetryTimer: bool, readPending: nat,
    fd: Option<int>, closedFileDescriptors: set<int>,
    fstatInFlight: Option<SizeCall>, readInFlight: Option<ReadRequest>,
    checkFileTimer: Option<nat>, statInFlight: Option<CheckCall>,
    pushed: seq<bv8>, ends: nat, descriptors: seq<int>, calls: seq<Call>)

  function Started(content: seq<bv8>, start: nat): State {
    State(content, start, start, false, false, true, false, 0, None, {}, None, None, None, None, [], 0, [], [OpenCall])
  }

  datatype Event =
    | Opened(descriptor: Option<int>)
    | Retry
    | Sized(size: Option<nat>)
    | Bytes(count: Option<nat>, beyond: seq<bv8>, again: nat)
    | CheckDue
    | Checked(size: Option<nat>)
    | Pull(wanted: int)
    | Close
    | Grow(bytes: seq<bv8>)

  /** The file is only appended to: a size lies between those at the call and at the callback. */
  predicate IsSize(size: Option<nat>, length: nat, content: seq<bv8>) {
    size.None? || length <= size.value <= |content|
  }

  /** The event can come: what it answers is in flight, with an answer the file can give. */
  predicate CanCome(s: State, e: Event) {
    match e
    case Opened(_) => s.getFdInProgress
    case Retry => s.openRetryTimer
    case Sized(size) => s.fstatInFlight.Some? && IsSize(size, s.fstatInFlight.value.length, s.content)
    case Bytes(count, beyond, _) =>
      s.readInFlight.Some? && (count.None? || count.value + |beyond| == s.readInFlight.value.size)
         && s.readInFlight.value.start + s.readInFlight.value.size <= |s.content|
    case CheckDue => s.checkFileTimer.Some?
    case Checked(size) => s.statInFlight.Some? && IsSize(size, s.statInFlight.value.length, s.content)
    case _ => true
  }

  // What the methods do

  function GetFd(s: State): State {
    if s.isClosed || s.fd.Some? || s.getFdInProgress then s
    else s.(getFdInProgress := true, calls := s.calls + [OpenCall])
  }

  function DoRead(s: State): State {
    if s.isClosed || s.fd.None? || s.readPending == 0 || s.readInProgress then s
    else s.(readInProgress := true, fstatInFlight := Some(SizeCall(s.fd.value, |s.content|)), calls := s.calls + [FstatCall(s.fd.value)])
  }

  function CloseFd(s: State, descriptor: int): State {
    if descriptor in s.closedFileDescriptors then s
    else s.(closedFileDescriptors := s.closedFileDescriptors + {descriptor}, calls := s.calls + [CloseCall(descriptor)])
  }

  function Dispose(s: State): State {
    if s.isClosed then s
    else
      var t := s.(isClosed := true, readPending := 0, checkFileTimer := None, openRetryTimer := false, fd := None);
      if s.fd.Some? then CloseFd(t, s.fd.value) else t
  }

  function CheckFile(s: State, size: nat): State {
    if s.isClosed || s.checkFileTimer.Some? then s else s.(checkFileTimer := Some(size))
  }

  function OnOpen(s: State, descriptor: Option<int>): State {
    var t := s.(getFdInProgress := false);
    if s.isClosed then
      if descriptor.Some? then CloseFd(t.(descriptors := s.descriptors + [descriptor.value]), descriptor.value) else t
    else if descriptor.None? then
      if s.readPending != 0 then t.(openRetryTimer := true) else t
    else
      var ready := t.(descriptors := s.descriptors + [descriptor.value], fd := descriptor);
      if s.readPending != 0 then DoRead(ready) else ready
  }

  function OnFstat(s: State, size: Option<nat>): State
    requires s.fstatInFlight.Some?
  {
    var t := s.(fstatInFlight := None);
    if s.isClosed || s.fd != Some(s.fstatInFlight.value.fd) then t.(readInProgress := false)
    else if size.None? then Dispose(t.(readInProgress := false))
    else AskForBytes(t, s.fstatInFlight.value.fd, size.value)
  }

  /** Reads what is there, or looks again later if nothing is; a shorter file is read from its beginning. */
  function AskForBytes(s: State, descriptor: int, end: nat): State {
    var from := if end < s.offset then 0 else s.offset;
    var size := if s.readPending < end - from then s.readPending else end - from;
    if size == 0 then CheckFile(s.(readInProgress := false), end)
    else s.(readInFlight := Some(ReadRequest(descriptor, from, size, end)), calls := s.calls + [ReadCall(descriptor, from, size)])
  }

  /** The whole buffer is pushed: the bytes read, and whatever it held beyond them. */
  function OnRead(s: State, count: Option<nat>, beyond: seq<bv8>, again: nat): State
    requires s.readInFlight.Some? && (count.Some? ==> s.readInFlight.value.start + count.value <= |s.content|)
  {
    var r := s.readInFlight.value;
    var t := s.(readInFlight := None, readInProgress := false);
    if s.isClosed || s.fd != Some(r.fd) then t
    else if count.None? then Dispose(t)
    else if count.value == 0 then CheckFile(t, r.end)
    else Receive(t, r.start, count.value, beyond, again)
  }

  function Receive(s: State, from: nat, count: nat, beyond: seq<bv8>, again: nat): State
    requires from + count <= |s.content|
  {
    Read(s.(readPending := 0, offset := from + count, pushed := s.pushed + s.content[from..from + count] + beyond), again)
  }

  function OnCheckFileTimer(s: State): State
    requires s.checkFileTimer.Some?
  {
    var t := s.(checkFileTimer := None);
    if s.isClosed then t
    else t.(statInFlight := Some(CheckCall(s.checkFileTimer.value, |s.content|)), calls := s.calls + [StatCall])
  }

  function OnStat(s: State, size: Option<nat>): State
    requires s.statInFlight.Some?
  {
    var t := s.(statInFlight := None);
    if s.isClosed then t
    else if size.None? then Dispose(t)
    else if size.value != s.statInFlight.value.size then DoRead(t)
    else Finish(t)
  }

  function Finish(s: State): State {
    if s.isClosed then s else Dispose(s).(ends := s.ends + 1)
  }

  function Read(s: State, size: int): State {
    if s.isClosed || s.readPending != 0 || size <= 0 then s
    else
      var t := s.(readPending := size);
      if s.fd.None? then GetFd(t) else DoRead(t)
  }

  /** One step; an event that cannot come changes nothing. */
  function Step(s: State, e: Event): State {
    if !CanCome(s, e) then s
    else
      match e
      case Opened(descriptor) => OnOpen(s, descriptor)
      case Retry => GetFd(s.(openRetryTimer := false))
      case Sized(size) => OnFstat(s, size)
      case Bytes(count, beyond, again) => OnRead(s, count, beyond, again)
      case CheckDue => OnCheckFileTimer(s)
      case Checked(size) => OnStat(s, size)
      case Pull(wanted) => Read(s, wanted)
      case Close => Dispose(s)
      case Grow(bytes) => s.(content := s.content + bytes)
  }

  function Run(content: seq<bv8>, start: nat, events: seq<Event>): State {
    if events == [] then Started(content, start)
    else Step(Run(content, start, events[..|events| - 1]), events[|events| - 1])
  }

  function At(content: seq<bv8>, start: nat, events: seq<Event>, i: nat): State
    requires i <= |events|
  {
    Run(content, start, events[..i])
  }

  lemma AtStep(content: seq<bv8>, start: nat, events: seq<Event>, i: nat)
    requires i < |events|
    ensures At(content, start, events, i + 1) == Step(At(content, start, events, i), events[i])
  {
    assert events[..i + 1][..i] == events[..i];
  }

  // What every run keeps

  /** One descriptor at most is ever opened; it is closed once, with the last call of all. */
  ghost predicate Descriptors(s: State) {
    && |s.descriptors| <= 1
    && (s.fd.Some? ==> !s.isClosed && s.descriptors == [s.fd.value] && !s.getFdInProgress)
    && (s.getFdInProgress || (!s.isClosed && s.fd.None?) ==> s.descriptors == [])
    && (if s.isClosed && s.descriptors != []
        then s.calls != [] && s.calls[|s.calls| - 1] == CloseCall(s.descriptors[0]) && NoCloseBefore(s.calls, |s.calls| - 1)
        else NoCloseBefore(s.calls, |s.calls|) && s.closedFileDescriptors == {})
  }

  ghost predicate NoCloseBefore(calls: seq<Call>, n: nat) {
    forall i :: 0 <= i < n && i < |calls| ==> !calls[i].CloseCall?
  }

  ghost predicate InFlight(s: State) {
    && (s.readInProgress <==> s.fstatInFlight.Some? || s.readInFlight.Some?)
    && !(s.fstatInFlight.Some? && s.readInFlight.Some?)
    && !(s.checkFileTimer.Some? && s.statInFlight.Some?)
    && (s.isClosed ==> s.readPending == 0 && s.checkFileTimer.None? && !s.openRetryTimer)
    && (s.openRetryTimer ==> s.fd.None? && s.readPending > 0 && !s.getFdInProgress)
    && (!s.isClosed && s.fstatInFlight.Some? ==> s.fd == Some(s.fstatInFlight.value.fd) && s.readPending > 0)
    && (!s.isClosed && s.readInFlight.Some? ==> s.fd == Some(s.readInFlight.value.fd) && s.readPending > 0)
    && (!s.isClosed && (s.checkFileTimer.Some? || s.statInFlight.Some?) ==> s.fd.Some? && s.readPending > 0 && !s.readInProgress)
    && s.ends <= 1 && (s.ends == 1 ==> s.isClosed)
  }

  /** A read that is waited for has something under way that will answer it. */
  ghost predicate Awake(s: State) {
    !s.isClosed && s.readPending > 0
    ==> s.getFdInProgress || s.openRetryTimer || s.readInProgress || s.checkFileTimer.Some? || s.statInFlight.Some?
  }

  ghost predicate Valid(s: State) {
    Descriptors(s) && InFlight(s) && Awake(s)
  }

  /** Closing early keeps everything, with whatever callbacks still to come. */
  lemma DisposeKeeps(s: State)
    requires Descriptors(s) && (s.isClosed ==> Valid(s))
    requires InFlight(s.(isClosed := true, readPending := 0, checkFileTimer := None, openRetryTimer := false, fd := None))
    ensures Valid(Dispose(s))
  {
  }

  lemma OpenedKeeps(s: State, descriptor: Option<int>)
    requires Valid(s) && s.getFdInProgress
    ensures Valid(OnOpen(s, descriptor))
  {
  }

  lemma SizedKeeps(s: State, size: Option<nat>)
    requires Valid(s) && s.fstatInFlight.Some?
    ensures Valid(OnFstat(s, size))
  {
    if !s.isClosed && size.None? { DisposeKeeps(s.(fstatInFlight := None, readInProgress := false)); }
  }

  lemma BytesKeep(s: State, count: Option<nat>, beyond: seq<bv8>, again: nat)
    requires Valid(s) && CanCome(s, Bytes(count, beyond, again))
    ensures Valid(OnRead(s, count, beyond, again))
  {
    if !s.isClosed && count.None? { DisposeKeeps(s.(readInFlight := None, readInProgress := false)); }
  }

  lemma CheckedKeeps(s: State, size: Option<nat>)
    requires Valid(s) && s.statInFlight.Some?
    ensures Valid(OnStat(s, size))
  {
    if !s.isClosed { DisposeKeeps(s.(statInFlight := None)); }
  }

  lemma StepKeeps(s: State, e: Event)
    requires Valid(s)
    ensures Valid(Step(s, e))
  {
    if CanCome(s, e) {
      match e
      case Opened(descriptor) => OpenedKeeps(s, descriptor);
      case Sized(size) => SizedKeeps(s, size);
      case Bytes(count, beyond, again) => BytesKeep(s, count, beyond, again);
      case Checked(size) => CheckedKeeps(s, size);
      case Close => DisposeKeeps(s);
      case _ =>
    }
  }

  lemma {:induction false} RunKeeps(content: seq<bv8>, start: nat, events: seq<Event>)
    ensures Valid(Run(content, start, events))
  {
    if events != [] {
      RunKeeps(content, start, events[..|events| - 1]);
      StepKeeps(Run(content, start, events[..|events| - 1]), events[|events| - 1]);
    }
  }

  /**
   In every run the file system is called no more once a descriptor is closed, so a descriptor is closed
   once and is not used afterwards; and a closed stream that no longer opens has closed its descriptor.
   */
  lemma CloseIsLast(content: seq<bv8>, start: nat, events: seq<Event>)
    ensures var s := Run(content, start, events);
      && (forall i :: 0 <= i < |s.calls| && s.calls[i].CloseCall? ==> i == |s.calls| - 1)
      && |s.descriptors| <= 1 && s.ends <= 1
      && (s.isClosed && s.descriptors != [] ==> CloseCall(s.descriptors[0]) in s.calls)
  {
    RunKeeps(content, start, events);
  }

  // The bytes

  /** The data is what the content has from one position to another. */
  ghost predicate Is(data: seq<bv8>, content: seq<bv8>, from: nat, to: nat) {
    && |data| == to - from
    && (data == [] || to <= |content|)
    && forall k :: 0 <= k < |data| ==> data[k] == content[from + k]
  }

  /** A read that arrives in the open stream and brings some bytes. */
  predicate Brings(s: State, e: Event) {
    e.Bytes? && CanCome(s, e) && !s.isClosed && e.count.Some? && e.count.value > 0
  }

  /** It brings fewer than it asked for, or was made elsewhere than at the position. */
  predicate Misplaced(s: State, e: Event) {
    Brings(s, e) && (e.beyond != [] || s.readInFlight.value.start != s.offset)
  }

  predicate NoneMisplaced(content: seq<bv8>, start: nat, events: seq<Event>) {
    NoneMisplacedBefore(content, start, events, |events|)
  }

  predicate NoneMisplacedBefore(content: seq<bv8>, start: nat, events: seq<Event>, n: nat)
    requires n <= |events|
  {
    forall i :: 0 <= i < n ==> !MisplacedAt(content, start, events, i)
  }

  predicate MisplacedAt(content: seq<bv8>, start: nat, events: seq<Event>, i: nat)
    requires i < |events|
  {
    Misplaced(At(content, start, events, i), events[i])
  }

  ghost predicate Reads(s: State) {
    s.readInFlight.Some? ==>
      var r := s.readInFlight.value;
      r.size > 0 && r.start + r.size <= |s.content| && (s.isClosed || r.start == s.offset || r.start == 0)
  }

  /** More is pushed than the position moved on as soon as, and only if, a read was misplaced. */
  ghost predicate Pushed(s: State, clean: bool) {
    && Reads(s)
    && |s.pushed| >= s.offset - s.start
    && (clean <==> |s.pushed| == s.offset - s.start)
    && (clean ==> Is(s.pushed, s.content, s.start, s.offset))
  }

  lemma BytesArrive(s: State, e: Event, clean: bool)
    requires Valid(s) && Pushed(s, clean) && Brings(s, e)
    ensures Pushed(Step(s, e), clean && !Misplaced(s, e))
  {
    var from := s.readInFlight.value.start;
    var to := from + e.count.value;
    assert s.fd == Some(s.readInFlight.value.fd);
    ReceiveShows(s.(readInFlight := None, readInProgress := false), from, e.count.value, e.beyond, e.again);
    if clean && !Misplaced(s, e) {
      IsExtended(s.pushed, s.content, s.start, s.offset, to);
      assert s.pushed + s.content[from..to] + e.beyond == s.pushed + s.content[from..to];
    }
  }

  lemma ReceiveShows(s: State, from: nat, count: nat, beyond: seq<bv8>, again: nat)
    requires from + count <= |s.content|
    ensures var t := Receive(s, from, count, beyond, again);
      && t.offset == from + count && t.start == s.start && t.content == s.content && t.isClosed == s.isClosed
      && t.pushed == s.pushed + s.content[from..from + count] + beyond && t.readInFlight == s.readInFlight
  {
  }

  lemma IsExtended(data: seq<bv8>, content: seq<bv8>, from: nat, mid: nat, to: nat)
    requires Is(data, content, from, mid) && mid <= to <= |content|
    ensures Is(data + content[mid..to], content, from, to)
  {
  }

  lemma LongerIs(data: seq<bv8>, content: seq<bv8>, more: seq<bv8>, from: nat, to: nat)
    requires Is(data, content, from, to)
    ensures Is(data, content + more, from, to)
  {
  }

  lemma NothingArrives(s: State, e: Event, clean: bool)
    requires Valid(s) && Pushed(s, clean) && !Brings(s, e)
    ensures Pushed(Step(s, e), clean)
  {
    match e
    case Grow(bytes) => if clean { LongerIs(s.pushed, s.content, bytes, s.start, s.offset); }
    case Sized(size) => if CanCome(s, e) { SizedMovesNothing(s, size); }
    case Bytes(count, beyond, again) => if CanCome(s, e) { NoBytesMoveNothing(s, count, beyond, again); }
    case _ =>
  }

  /** The position, what is pushed and the file stay as they are. */
  ghost predicate SamePlace(s: State, t: State) {
    t.content == s.content && t.start == s.start && t.offset == s.offset && t.pushed == s.pushed
  }

  lemma SizedMovesNothing(s: State, size: Option<nat>)
    requires Valid(s) && Reads(s) && CanCome(s, Sized(size))
    ensures SamePlace(s, OnFstat(s, size)) && Reads(OnFstat(s, size))
  {
  }

  lemma NoBytesMoveNothing(s: State, count: Option<nat>, beyond: seq<bv8>, again: nat)
    requires Valid(s) && CanCome(s, Bytes(count, beyond, again)) && !Brings(s, Bytes(count, beyond, again))
    ensures SamePlace(s, OnRead(s, count, beyond, again)) && Reads(OnRead(s, count, beyond, again))
  {
  }

  lemma {:induction false} PushedInRun(content: seq<bv8>, start: nat, events: seq<Event>, n: nat)
    requires n <= |events|
    ensures Pushed(At(content, start, events, n), NoneMisplacedBefore(content, start, events, n))
  {
    if n == 0 {
      assert events[..0] == [];
    } else {
      PushedInRun(content, start, events, n - 1);
      RunKeeps(content, start, events[..n - 1]);
      AtStep(content, start, events, n - 1);
      StepPushed(At(content, start, events, n - 1), events[n - 1], NoneMisplacedBefore(content, start, events, n - 1));
      assert NoneMisplacedBefore(content, start, events, n)
          == (NoneMisplacedBefore(content, start, events, n - 1) && !MisplacedAt(content, start, events, n - 1));
    }
  }

  lemma SameBefore(content: seq<bv8>, start: nat, events: seq<Event>, n: nat, i: nat)
    requires i < n <= |events|
    ensures At(content, start, events[..n], i) == At(content, start, events, i) && events[..n][i] == events[i]
  {
    assert events[..n][..i] == events[..i];
  }

  lemma StepPushed(s: State, e: Event, clean: bool)
    requires Valid(s) && Pushed(s, clean)
    ensures Pushed(Step(s, e), clean && !Misplaced(s, e))
  {
    if Brings(s, e) { BytesArrive(s, e, clean); } else { NothingArrives(s, e, clean); }
  }

  /** In any run the bytes pushed are the file from the start to the position exactly if no read was misplaced. */
  lemma PushedExactly(content: seq<bv8>, start: nat, events: seq<Event>)
    ensures var s := Run(content, start, events);
      Is(s.pushed, s.content, start, s.offset) <==> NoneMisplaced(content, start, events)
  {
    PushedInRun(content, start, events, |events|);
    assert events[..|events|] == events;
    StartIsFixed(content, start, events);
  }

  lemma {:induction false} StartIsFixed(content: seq<bv8>, start: nat, events: seq<Event>)
    ensures Run(content, start, events).start == start
  {
    if events != [] {
      StartIsFixed(content, start, events[..|events| - 1]);
      StepKeepsStart(Run(content, start, events[..|events| - 1]), events[|events| - 1]);
    }
  }

  lemma StepKeepsStart(s: State, e: Event)
    ensures Step(s, e).start == s.start
  {
    match e
    case Sized(size) => if CanCome(s, e) { SizedNeverEnds(s, size); }
    case Bytes(count, beyond, again) => if CanCome(s, e) { BytesNeverEnd(s, count, beyond, again); }
    case _ =>
  }

  // Files at least as long as the start

  /** The position is inside the file, and every answer that is still to come says so. */
  ghost predicate InRange(s: State) {
    && s.offset <= |s.content|
    && (s.fstatInFlight.Some? ==> s.isClosed || s.offset <= s.fstatInFlight.value.length)
    && (s.readInFlight.Some? ==> s.isClosed || s.readInFlight.value.start == s.offset)
  }

  lemma StepStaysInRange(s: State, e: Event)
    requires Valid(s) && InRange(s)
    ensures InRange(Step(s, e))
  {
  }

  lemma {:induction false} RunInRange(content: seq<bv8>, start: nat, events: seq<Event>)
    requires start <= |content|
    ensures InRange(Run(content, start, events))
  {
    if events != [] {
      RunInRange(content, start, events[..|events| - 1]);
      RunKeeps(content, start, events[..|events| - 1]);
      StepStaysInRange(Run(content, start, events[..|events| - 1]), events[|events| - 1]);
    }
  }

  /** A read that arrives in the open stream falls short, but brings something. */
  predicate Short(s: State, e: Event) {
    Brings(s, e) && e.beyond != []
  }

  predicate NoneShort(content: seq<bv8>, start: nat, events: seq<Event>) {
    forall i :: 0 <= i < |events| ==> !ShortAt(content, start, events, i)
  }

  predicate ShortAt(content: seq<bv8>, start: nat, events: seq<Event>, i: nat)
    requires i < |events|
  {
    Short(At(content, start, events, i), events[i])
  }

  /** For a file at least as long as the start: exactly if no read that brought something fell short. */
  lemma PushedIsFileExactly(content: seq<bv8>, start: nat, events: seq<Event>)
    requires start <= |content|
    ensures var s := Run(content, start, events);
      Is(s.pushed, s.content, start, s.offset) <==> NoneShort(content, start, events)
  {
    PushedExactly(content, start, events);
    forall i | 0 <= i < |events| ensures MisplacedAt(content, start, events, i) <==> ShortAt(content, start, events, i) {
      RunInRange(content, start, events[..i]);
    }
  }

  /** Every read that arrives in the open stream brings all that it asked for. */
  predicate FullReads(content: seq<bv8>, start: nat, events: seq<Event>) {
    forall i :: 0 <= i < |events| ==> FullAt(content, start, events, i)
  }

  predicate FullAt(content: seq<bv8>, start: nat, events: seq<Event>, i: nat)
    requires i < |events|
  {
    Full(At(content, start, events, i), events[i])
  }

  predicate Full(s: State, e: Event) {
    e.Bytes? && CanCome(s, e) && !s.isClosed && e.count.Some? ==> e.beyond == []
  }

  /** What is being checked is the size up to which everything was read. */
  ghost predicate ChecksPosition(s: State) {
    && Reads(s)
    && (s.checkFileTimer.Some? ==> s.isClosed || s.checkFileTimer.value == s.offset)
    && (s.statInFlight.Some? ==> s.isClosed || s.statInFlight.value.size == s.offset)
  }

  lemma StepChecksPosition(s: State, e: Event)
    requires Valid(s) && InRange(s) && ChecksPosition(s) && Full(s, e)
    ensures ChecksPosition(Step(s, e))
  {
  }

  lemma {:induction false} RunChecksPosition(content: seq<bv8>, start: nat, events: seq<Event>, n: nat)
    requires start <= |content| && n <= |events| && FullReads(content, start, events)
    ensures ChecksPosition(At(content, start, events, n))
  {
    if n > 0 {
      RunChecksPosition(content, start, events, n - 1);
      RunInRange(content, start, events[..n - 1]);
      RunKeeps(content, start, events[..n - 1]);
      AtStep(content, start, events, n - 1);
      assert FullAt(content, start, events, n - 1);
      StepChecksPosition(At(content, start, events, n - 1), events[n - 1]);
    } else {
      assert events[..0] == [];
    }
  }

  /**
   With full reads of a file at least as long as the start, the stream ends only when the file is checked
   to be as long as the position, and then everything from the start on is pushed.
   */
  lemma EndsAtPosition(content: seq<bv8>, start: nat, events: seq<Event>, i: nat)
    requires start <= |content| && i < |events| && FullReads(content, start, events)
    requires At(content, start, events, i + 1).ends > At(content, start, events, i).ends
    ensures var s := At(content, start, events, i);
      && events[i] == Checked(Some(s.offset))
      && Is(s.pushed, s.content, start, s.offset)
  {
    AtStep(content, start, events, i);
    RunChecksPosition(content, start, events, i);
    RunKeeps(content, start, events[..i]);
    OnlyChecksEnd(At(content, start, events, i), events[i]);
    PushedIsFileExactly(content, start, events[..i]);
    forall k | 0 <= k < i ensures !ShortAt(content, start, events[..i], k) {
      SameBefore(content, start, events, i, k);
      assert FullAt(content, start, events, k);
    }
  }

  /** The stream ends exactly if the file kept the size that is being checked. */
  lemma OnlyChecksEnd(s: State, e: Event)
    ensures Step(s, e).ends == s.ends
            + if CanCome(s, e) && e.Checked? && !s.isClosed && e.size == Some(s.statInFlight.value.size) then 1 else 0
  {
    match e
    case Opened(descriptor) =>
    case Sized(size) => if CanCome(s, e) { SizedNeverEnds(s, size); }
    case Bytes(count, beyond, again) => if CanCome(s, e) { BytesNeverEnd(s, count, beyond, again); }
    case _ =>
  }

  lemma SizedNeverEnds(s: State, size: Option<nat>)
    requires s.fstatInFlight.Some?
    ensures OnFstat(s, size).ends == s.ends && OnFstat(s, size).start == s.start
  {
  }

  lemma BytesNeverEnd(s: State, count: Option<nat>, beyond: seq<bv8>, again: nat)
    requires CanCome(s, Bytes(count, beyond, again))
    ensures OnRead(s, count, beyond, again).ends == s.ends && OnRead(s, count, beyond, again).start == s.start
  {
  }

  // What single callbacks do

  /** A descriptor is used at once if a read is waiting, and closed at once if it comes too late. */
  lemma OpenedDoes(s: State, descriptor: Option<int>)
    requires Valid(s) && s.getFdInProgress
    ensures var t := Step(s, Opened(descriptor));
      && t.isClosed == s.isClosed && t.readPending == s.readPending && !t.getFdInProgress
      && (descriptor.None? ==> t.calls == s.calls && t.fd.None? && (t.openRetryTimer <==> !s.isClosed && s.readPending > 0))
      && (descriptor.Some? ==>
            && t.descriptors == [descriptor.value] && t.fd == (if s.isClosed then None else descriptor)
            && t.calls == s.calls + if s.isClosed then [CloseCall(descriptor.value)]
                                    else if s.readPending > 0 then [FstatCall(descriptor.value)] else [])
  {
  }

  /** A call in the open stream keeps it open, keeps what is wanted and adds these calls. */
  ghost predicate GoesOn(s: State, t: State, calls: seq<Call>) {
    !t.isClosed && t.readPending == s.readPending && t.fd == s.fd && t.ends == s.ends && t.calls == s.calls + calls
  }

  /** The stream is over: its descriptor is closed and nothing is wanted any more. */
  ghost predicate GoesOut(s: State, t: State) {
    t.isClosed && t.readPending == 0 && t.fd.None? && t.calls == s.calls + if s.fd.Some? then [CloseCall(s.fd.value)] else []
  }

  /** It asks for what is there up to what is wanted, from the position on, or from the beginning of a shorter file. */
  lemma SizedDoes(s: State, size: Option<nat>)
    requires Valid(s) && CanCome(s, Sized(size)) && !s.isClosed
    ensures var t := Step(s, Sized(size));
      if size.None? then GoesOut(s, t) && t.ends == s.ends
      else if size.value == s.offset || size.value == 0 then GoesOn(s, t, []) && t.checkFileTimer == size && !t.readInProgress
      else
        var from := if size.value > s.offset then s.offset else 0;
        exists n: nat :: GoesOn(s, t, [ReadCall(s.fd.value, from, n)]) && 0 < n <= s.readPending && from + n <= size.value
                         && (n == s.readPending || from + n == size.value)
                         && t.readInFlight == Some(ReadRequest(s.fd.value, from, n, size.value))
  {
    if size.Some? && size.value != s.offset && size.value != 0 {
      var r := Step(s, Sized(size)).readInFlight.value;
      assert GoesOn(s, Step(s, Sized(size)), [ReadCall(s.fd.value, r.start, r.size)]);
    }
  }

  /** Bytes move the position behind them and are pushed; a further demand, if any, asks for the size again. */
  lemma BytesDo(s: State, count: Option<nat>, beyond: seq<bv8>, again: nat)
    requires Valid(s) && CanCome(s, Bytes(count, beyond, again)) && !s.isClosed
    ensures var t, r := Step(s, Bytes(count, beyond, again)), s.readInFlight.value;
      if count.None? then GoesOut(s, t) && t.ends == s.ends
      else if count.value == 0 then GoesOn(s, t, []) && t.checkFileTimer == Some(r.end) && t.pushed == s.pushed && t.offset == s.offset
      else
        && t.offset == r.start + count.value && t.pushed == s.pushed + s.content[r.start..t.offset] + beyond
        && !t.isClosed && t.fd == s.fd && t.ends == s.ends && t.readPending == again
        && t.calls == s.calls + if again > 0 then [FstatCall(s.fd.value)] else []
  {
  }

  /** The timer looks for the size of the file; the size to compare with stays the same. */
  lemma CheckDueDoes(s: State)
    requires Valid(s) && s.checkFileTimer.Some?
    ensures var t := Step(s, CheckDue);
      GoesOn(s, t, [StatCall]) && t.statInFlight == Some(CheckCall(s.checkFileTimer.value, |s.content|))
  {
  }

  /** A file of another size is read on, beginning with its size; one of the same size is over. */
  lemma CheckedDoes(s: State, size: Option<nat>)
    requires Valid(s) && CanCome(s, Checked(size)) && !s.isClosed
    ensures var t := Step(s, Checked(size));
      if size.None? then GoesOut(s, t) && t.ends == s.ends
      else if size.value == s.statInFlight.value.size then GoesOut(s, t) && t.ends == s.ends + 1
      else GoesOn(s, t, [FstatCall(s.fd.value)]) && t.fstatInFlight == Some(SizeCall(s.fd.value, |s.content|))
  {
  }

  /** A demand counts in the open stream if none is waiting. It opens the file, or asks for its size. */
  lemma PullDoes(s: State, wanted: int)
    requires Valid(s)
    ensures var t := Step(s, Pull(wanted));
      if s.isClosed || s.readPending > 0 || wanted <= 0 then t == s
      else
        && t.readPending == wanted && !t.isClosed && t.fd == s.fd
        && t.calls == s.calls + if s.fd.Some? then [FstatCall(s.fd.value)] else if s.getFdInProgress then [] else [OpenCall]
  {
  }

  /** Trying again opens the file. */
  lemma RetryDoes(s: State)
    requires Valid(s) && s.openRetryTimer
    ensures GoesOn(s, Step(s, Retry), [OpenCall]) && Step(s, Retry).getFdInProgress
  {
  }

  // What closes the stream

  /** What closes an open stream: closing it, an answer that brings an error, or a check that finds the size unchanged. */
  predicate Closing(s: State, e: Event) {
    && !s.isClosed && CanCome(s, e)
    && match e
       case Close => true
       case Sized(size) => size.None?
       case Bytes(count, _, _) => count.None?
       case Checked(size) => size.None? || size.value == s.statInFlight.value.size
       case _ => false
  }

  lemma StepCloses(s: State, e: Event)
    requires Valid(s)
    ensures Step(s, e).isClosed <==> s.isClosed || Closing(s, e)
  {
    if CanCome(s, e) && !s.isClosed {
      match e
      case Opened(descriptor) => OpenedDoes(s, descriptor);
      case Sized(size) => SizedDoes(s, size);
      case Bytes(count, beyond, again) => BytesDo(s, count, beyond, again);
      case Checked(size) => CheckedDoes(s, size);
      case Pull(wanted) => PullDoes(s, wanted);
      case _ =>
    } else if CanCome(s, e) {
      ClosedStays(s, e);
    }
  }

  lemma ClosedStays(s: State, e: Event)
    requires Valid(s) && CanCome(s, e) && s.isClosed
    ensures Step(s, e).isClosed && Step(s, e).pushed == s.pushed && Step(s, e).ends == s.ends
  {
  }

  predicate ClosingAt(content: seq<bv8>, start: nat, events: seq<Event>, i: nat)
    requires i < |events|
  {
    Closing(At(content, start, events, i), events[i])
  }

  /** In any run the stream is closed exactly if something closed it; a file that has grown never does. */
  lemma {:induction false} ClosedExactly(content: seq<bv8>, start: nat, events: seq<Event>, n: nat)
    requires n <= |events|
    ensures At(content, start, events, n).isClosed <==> exists i :: 0 <= i < n && ClosingAt(content, start, events, i)
  {
    if n == 0 {
      assert events[..0] == [];
    } else {
      ClosedExactly(content, start, events, n - 1);
      RunKeeps(content, start, events[..n - 1]);
      AtStep(content, start, events, n - 1);
      StepCloses(At(content, start, events, n - 1), events[n - 1]);
      assert Closing(At(content, start, events, n - 1), events[n - 1]) == ClosingAt(content, start, events, n - 1);
    }
  }
}
