/**
 The class of src/lib/TailStream.ts. Each method is proved to do the step of `TailReading` that it
 stands for, so what is proved there of every run holds of the class.
 */
module TailStream {
  import opened Options
  import opened TailReading
  import M = TailReading

  class File {
    var content: seq<bv8>

    constructor (content: seq<bv8>)
      ensures this.content == content
    {
      this.content := content;
    }

    method Append(bytes: seq<bv8>)
      modifies this
      ensures content == old(content) + bytes
    {
      content := content + bytes;
    }
  }

  /** What is pushed, ended, opened and called is kept in ghost fields. */
  class TailStream {
    const file: File
    const start: nat
    var offset: nat
    var isClosed: bool
    var readInProgress: bool
    var getFdInProgress: bool
    var openRetryTimer: bool
    var readPending: nat
    var fd: Option<int>
    var closedFileDescriptors: set<int>
    var fstatInFlight: Option<SizeCall>
    var readInFlight: Option<ReadRequest>
    var checkFileTimer: Option<nat>
    var statInFlight: Option<CheckCall>
    ghost var pushed: seq<bv8>
    ghost var ends: nat
    ghost var descriptors: seq<int>
    ghost var calls: seq<Call>

    ghost function View(): State
      reads this, file
    {
      State(file.content, start, offset, isClosed, readInProgress, getFdInProgress, openRetryTimer, readPending, fd,
            closedFileDescriptors, fstatInFlight, readInFlight, checkFileTimer, statInFlight, pushed, ends, descriptors, calls)
    }

    /** The event can come: what it answers is in flight, with an answer the file can give. */
    predicate Due(e: Event)
      reads this, file
      ensures Due(e) == CanCome(View(), e)
    {
      match e
      case Opened(_) => getFdInProgress
      case Retry => openRetryTimer
      case Sized(size) => fstatInFlight.Some? && IsSize(size, fstatInFlight.value.length, file.content)
      case Bytes(count, beyond, _) =>
        readInFlight.Some? && (count.None? || count.value + |beyond| == readInFlight.value.size)
        && readInFlight.value.start + readInFlight.value.size <= |file.content|
      case CheckDue => checkFileTimer.Some?
      case Checked(size) => statInFlight.Some? && IsSize(size, statInFlight.value.length, file.content)
      case _ => true
    }

    constructor (file: File, start: nat)
      ensures View() == Started(file.content, start) && this.file == file
    {
      this.file, this.start, offset := file, start, start;
      isClosed, readInProgress, openRetryTimer, readPending, fd := false, false, false, 0, None;
      closedFileDescriptors, fstatInFlight, readInFlight, checkFileTimer, statInFlight := {}, None, None, None, None;
      getFdInProgress := true;
      pushed, ends, descriptors, calls := [], 0, [], [OpenCall];
    }

    method GetFd()
      modifies this`getFdInProgress, this`calls
      ensures View() == M.GetFd(old(View()))
    {
      if isClosed || fd.Some? || getFdInProgress { return; }
      getFdInProgress := true;
      calls := calls + [OpenCall];
    }

    method OnOpen(descriptor: Option<int>)
      requires getFdInProgress
      modifies this
      ensures View() == M.OnOpen(old(View()), descriptor)
    {
      getFdInProgress := false;
      if isClosed {
        if descriptor.Some? {
          descriptors := descriptors + [descriptor.value];
          CloseFileDescriptor(descriptor.value);
        }
        return;
      }
      if descriptor.None? {
        if readPending != 0 { ScheduleOpenRetry(); }
      } else {
        descriptors := descriptors + [descriptor.value];
        fd := descriptor;
        if readPending != 0 { DoRead(); }
      }
    }

    method ScheduleOpenRetry()
      modifies this`openRetryTimer
      ensures openRetryTimer
    {
      if openRetryTimer { return; }
      openRetryTimer := true;
    }

    method OnOpenRetryTimer()
      requires openRetryTimer
      modifies this`openRetryTimer, this`getFdInProgress, this`calls
      ensures View() == Step(old(View()), Retry)
    {
      openRetryTimer := false;
      GetFd();
    }

    method DoRead()
      modifies this`readInProgress, this`fstatInFlight, this`calls
      ensures View() == M.DoRead(old(View()))
    {
      if isClosed || fd.None? || readPending == 0 || readInProgress { return; }
      readInProgress := true;
      fstatInFlight := Some(SizeCall(fd.value, |file.content|));
      calls := calls + [FstatCall(fd.value)];
    }

    method OnFstat(result: Option<nat>)
      requires fstatInFlight.Some?
      modifies this
      ensures View() == M.OnFstat(old(View()), result)
    {
      var captured := fstatInFlight.value.fd;
      fstatInFlight := None;
      if isClosed || fd != Some(captured) {
        readInProgress := false;
        return;
      }
      if result.None? {
        readInProgress := false;
        Dispose();
        return;
      }
      var from, end := offset, result.value;
      if end < from { from := 0; }
      var size := if readPending < end - from then readPending else end - from;
      if size == 0 {
        readInProgress := false;
        CheckFile(end);
        return;
      }
      readInFlight := Some(ReadRequest(captured, from, size, end));
      calls := calls + [ReadCall(captured, from, size)];
    }

    /** `beyond` is what the buffer held past the bytes read; `again` is the size of a read that pushing asks for, if any. */
    method OnRead(bytesRead: Option<nat>, beyond: seq<bv8>, again: nat)
      requires readInFlight.Some? && (bytesRead.Some? ==> readInFlight.value.start + bytesRead.value <= |file.content|)
      modifies this
      ensures View() == M.OnRead(old(View()), bytesRead, beyond, again)
    {
      var request := readInFlight.value;
      readInFlight := None;
      if isClosed || fd != Some(request.fd) {
        readInProgress := false;
        return;
      }
      readInProgress := false;
      if bytesRead.None? {
        Dispose();
        return;
      }
      if bytesRead.value == 0 {
        CheckFile(request.end);
        return;
      }
      Receive(request.start, bytesRead.value, beyond, again);
    }

    method Receive(from: nat, count: nat, beyond: seq<bv8>, again: nat)
      requires from + count <= |file.content|
      modifies this
      ensures View() == M.Receive(old(View()), from, count, beyond, again)
    {
      readPending := 0;
      offset := from + count;
      pushed := pushed + file.content[from..offset] + beyond;
      Read(again);
    }

    method CheckFile(sizeAtEndOfFile: nat)
      modifies this`checkFileTimer
      ensures View() == M.CheckFile(old(View()), sizeAtEndOfFile)
    {
      if isClosed || checkFileTimer.Some? { return; }
      checkFileTimer := Some(sizeAtEndOfFile);
    }

    method OnCheckFileTimer()
      requires checkFileTimer.Some?
      modifies this`checkFileTimer, this`statInFlight, this`calls
      ensures View() == M.OnCheckFileTimer(old(View()))
    {
      var size := checkFileTimer.value;
      checkFileTimer := None;
      if isClosed { return; }
      statInFlight := Some(CheckCall(size, |file.content|));
      calls := calls + [StatCall];
    }

    method OnStat(result: Option<nat>)
      requires statInFlight.Some?
      modifies this
      ensures View() == M.OnStat(old(View()), result)
    {
      var sizeAtEndOfFile := statInFlight.value.size;
      statInFlight := None;
      if isClosed { return; }
      if result.None? {
        Dispose();
        return;
      }
      if result.value != sizeAtEndOfFile { DoRead(); } else { Finish(); }
    }

    method Read(size: int)
      modifies this`readPending, this`getFdInProgress, this`readInProgress, this`fstatInFlight, this`calls
      ensures View() == M.Read(old(View()), size)
    {
      if isClosed || readPending != 0 || size <= 0 { return; }
      readPending := size;
      if fd.None? {
        if !getFdInProgress { GetFd(); }
        return;
      }
      DoRead();
    }

    method Destroy()
      modifies this
      ensures View() == M.Dispose(old(View()))
    {
      Dispose();
    }

    method Finish()
      modifies this
      ensures View() == M.Finish(old(View()))
    {
      if isClosed { return; }
      Dispose();
      ends := ends + 1;
    }

    method Dispose()
      modifies this`isClosed, this`readPending, this`checkFileTimer, this`openRetryTimer, this`fd, this`calls, this`closedFileDescriptors
      ensures View() == M.Dispose(old(View()))
    {
      if isClosed { return; }
      isClosed, readPending := true, 0;
      checkFileTimer, openRetryTimer := None, false;
      var closing := fd;
      fd := None;
      if closing.Some? { CloseFileDescriptor(closing.value); }
    }

    method CloseFileDescriptor(descriptor: int)
      modifies this`calls, this`closedFileDescriptors
      ensures View() == M.CloseFd(old(View()), descriptor)
    {
      if descriptor in closedFileDescriptors { return; }
      closedFileDescriptors := closedFileDescriptors + {descriptor};
      calls := calls + [CloseCall(descriptor)];
    }
  }

  method Deliver(s: TailStream, e: Event)
    requires CanCome(s.View(), e)
    modifies s, s.file
    ensures s.View() == Step(old(s.View()), e)
  {
    match e {
      case Opened(descriptor) => s.OnOpen(descriptor);
      case Retry => s.OnOpenRetryTimer();
      case Sized(size) => s.OnFstat(size);
      case Bytes(count, beyond, again) => s.OnRead(count, beyond, again);
      case CheckDue => s.OnCheckFileTimer();
      case Checked(size) => s.OnStat(size);
      case Pull(wanted) => s.Read(wanted);
      case Close => s.Destroy();
      case Grow(bytes) => s.file.Append(bytes);
    }
  }

  /** Plays any run of callbacks, timers, reads and appends; an event that cannot come is passed over. */
  method Tail(content: seq<bv8>, start: nat, events: seq<Event>) returns (s: TailStream)
    ensures s.View() == Run(content, start, events)
  {
    var file := new File(content);
    s := new TailStream(file, start);
    for i := 0 to |events|
      invariant fresh(s) && fresh(file) && s.file == file
      invariant s.View() == Run(content, start, events[..i])
    {
      assert events[..i + 1][..i] == events[..i];
      if s.Due(events[i]) { Deliver(s, events[i]); }
    }
    assert events[..|events|] == events;
  }
}
