/**
 The external processes that a service child reported as started and not as ended
 (src/model/ServiceChildProcessRegistry.ts).
 */
module ProcessReports {
  import opened Options
  import opened RecordedUse

  datatype ProcessKind = Stream | Encode(encodeId: int) | Hls(pgid: int, streamId: int)

  datatype ProcessEntry = ProcessEntry(pid: int, kind: ProcessKind, startTime: Option<string>)

  /** A message as it arrives: the numbers are not checked yet. */
  datatype Message =
    | Ended(pid: int)
    | Started(pid: int, kind: ProcessKind)
    | Malformed
    | Unrelated

  /** What the operating system says about a pid when the message arrives. */
  datatype Identity = Running(startTime: string) | Absent | Zombie | Unavailable

  datatype Report = Report(message: Message, identity: Identity)

  function ToEntry(pid: int, kind: ProcessKind): Option<ProcessEntry> {
    if !IsSafeId(pid) then None
    else
      match kind
      case Stream => Some(ProcessEntry(pid, kind, None))
      case Encode(encodeId) => if IsSafeId(encodeId) then Some(ProcessEntry(pid, kind, None)) else None
      case Hls(pgid, streamId) =>
        if IsSafeId(pgid) && 0 <= streamId <= MAX_SAFE_INTEGER then Some(ProcessEntry(pid, kind, None)) else None
  }

  /** What a report says about a process: that it runs, that it ended, or nothing. */
  datatype News = Runs(entry: ProcessEntry) | Gone(pid: int) | Nothing

  function NewsOf(r: Report): News {
    match r.message
    case Ended(pid) => if IsSafeId(pid) then Gone(pid) else Nothing
    case Started(pid, kind) =>
      var entry := ToEntry(pid, kind);
      if entry.None? || r.identity.Absent? || r.identity.Zombie? then Nothing
      else Runs(entry.value.(startTime := if r.identity.Running? then Some(r.identity.startTime) else None))
    case _ => Nothing
  }

  /** The latest thing said about a pid. */
  function Latest(log: seq<Report>, pid: int): News {
    if log == [] then Nothing
    else
      var news := NewsOf(log[|log| - 1]);
      if (news.Runs? && news.entry.pid == pid) || (news.Gone? && news.pid == pid) then news
      else Latest(log[..|log| - 1], pid)
  }

  // What the reports say, in their own fields

  predicate Whole(n: int) { 0 < n < 9007199254740992 }

  /** The message announces a process that is still there, and this is its entry; stream ids count from nought. */
  ghost predicate Announces(r: Report, e: ProcessEntry) {
    && r.message == Started(e.pid, e.kind) && Whole(e.pid)
    && (match e.kind
        case Stream => true
        case Encode(encodeId) => Whole(encodeId)
        case Hls(pgid, streamId) => Whole(pgid) && (streamId == 0 || Whole(streamId)))
    && match r.identity
       case Running(startTime) => e.startTime == Some(startTime)
       case Unavailable => e.startTime == None
       case _ => false
  }

  ghost predicate Withdraws(r: Report, pid: int) {
    r.message == Ended(pid) && Whole(pid)
  }

  lemma NewsExactly(r: Report, e: ProcessEntry, pid: int)
    ensures NewsOf(r) == Runs(e) <==> Announces(r, e)
    ensures NewsOf(r) == Gone(pid) <==> Withdraws(r, pid)
  {
  }

  /** The report says something about the pid. */
  ghost predicate Concerns(r: Report, pid: int) {
    Withdraws(r, pid) || exists e: ProcessEntry :: e.pid == pid && Announces(r, e)
  }

  /** Report `n` announces the process, and no later one says anything about its pid. */
  ghost predicate LastAnnounced(log: seq<Report>, n: nat, e: ProcessEntry) {
    n < |log| && Announces(log[n], e) && forall m :: n < m < |log| ==> !Concerns(log[m], e.pid)
  }

  lemma ConcernsShows(r: Report, pid: int)
    ensures var news := NewsOf(r);
      Concerns(r, pid) <==> (news.Runs? && news.entry.pid == pid) || (news.Gone? && news.pid == pid)
  {
    var news := NewsOf(r);
    if news.Runs? { NewsExactly(r, news.entry, pid); }
    if news.Gone? { NewsExactly(r, ProcessEntry(pid, Stream, None), news.pid); }
    if e: ProcessEntry :| e.pid == pid && Announces(r, e) { NewsExactly(r, e, pid); }
  }

  /** The latest news of a process is that it runs exactly if it was announced and nothing was said since. */
  lemma {:induction false} LatestExactly(log: seq<Report>, e: ProcessEntry)
    ensures Latest(log, e.pid) == Runs(e) <==> exists n: nat :: LastAnnounced(log, n, e)
  {
    if log != [] {
      var last := |log| - 1;
      ConcernsShows(log[last], e.pid);
      NewsExactly(log[last], e, e.pid);
      if Concerns(log[last], e.pid) {
        if Announces(log[last], e) { assert LastAnnounced(log, last, e); }
      } else {
        LatestExactly(log[..last], e);
        assert !Announces(log[last], e);
        forall n: nat ensures LastAnnounced(log[..last], n, e) <==> LastAnnounced(log, n, e) {}
      }
    }
  }

  /** The entries are the processes announced by a report after which nothing was said about them. */
  lemma EntriesExactly(entries: seq<ProcessEntry>, log: seq<Report>, e: ProcessEntry)
    requires Reflects(entries, log)
    ensures e in entries <==> exists n: nat :: LastAnnounced(log, n, e)
  {
    LatestExactly(log, e);
  }

  /** Insertion-ordered map: a known pid keeps its place. */
  function Put(entries: seq<ProcessEntry>, e: ProcessEntry): seq<ProcessEntry> {
    if entries == [] then [e]
    else if entries[0].pid == e.pid then [e] + entries[1..]
    else [entries[0]] + Put(entries[1..], e)
  }

  function Drop(entries: seq<ProcessEntry>, pid: int): seq<ProcessEntry> {
    if entries == [] then []
    else if entries[0].pid == pid then Drop(entries[1..], pid)
    else [entries[0]] + Drop(entries[1..], pid)
  }

  ghost predicate DistinctPids(entries: seq<ProcessEntry>) {
    forall i, j :: 0 <= i < j < |entries| ==> entries[i].pid != entries[j].pid
  }

  lemma {:induction false} PutMembers(entries: seq<ProcessEntry>, e: ProcessEntry)
    requires DistinctPids(entries)
    ensures DistinctPids(Put(entries, e))
    ensures forall x :: x in Put(entries, e) <==> x == e || (x in entries && x.pid != e.pid)
  {
    if entries != [] {
      assert entries == [entries[0]] + entries[1..];
      assert forall x :: x in entries[1..] ==> x.pid != entries[0].pid;
      if entries[0].pid != e.pid { PutMembers(entries[1..], e); }
    }
  }

  lemma {:induction false} DropMembers(entries: seq<ProcessEntry>, pid: int)
    requires DistinctPids(entries)
    ensures DistinctPids(Drop(entries, pid))
    ensures forall x :: x in Drop(entries, pid) <==> x in entries && x.pid != pid
  {
    if entries != [] {
      assert entries == [entries[0]] + entries[1..];
      DropMembers(entries[1..], pid);
    }
  }

  /** A known pid keeps its place, and a new one comes last; no other entry moves or changes. */
  lemma {:induction false} PutPlaces(entries: seq<ProcessEntry>, e: ProcessEntry, place: nat)
    requires DistinctPids(entries) && place <= |entries|
    requires if place < |entries| then entries[place].pid == e.pid else forall x :: x in entries ==> x.pid != e.pid
    ensures Put(entries, e) == if place < |entries| then entries[place := e] else entries + [e]
  {
    if entries != [] && place > 0 {
      assert entries[0].pid != e.pid;
      PutPlaces(entries[1..], e, place - 1);
    }
  }

  /** The others close up, in their order. */
  lemma {:induction false} DropPlaces(entries: seq<ProcessEntry>, place: nat)
    requires DistinctPids(entries) && place < |entries|
    ensures Drop(entries, entries[place].pid) == entries[..place] + entries[place + 1..]
  {
    if place > 0 {
      assert entries[0].pid != entries[place].pid;
      DropPlaces(entries[1..], place - 1);
    } else {
      DropNone(entries[1..], entries[0].pid);
    }
  }

  lemma {:induction false} DropNone(entries: seq<ProcessEntry>, pid: int)
    requires forall x :: x in entries ==> x.pid != pid
    ensures Drop(entries, pid) == entries
  {
    if entries != [] { DropNone(entries[1..], pid); }
  }

  /** One entry per pid, and exactly for the pids last said to run, with what was said last. */
  ghost predicate Reflects(entries: seq<ProcessEntry>, log: seq<Report>) {
    DistinctPids(entries) && forall e :: e in entries <==> Latest(log, e.pid) == Runs(e)
  }

  datatype PeerState = PeerState(entries: seq<ProcessEntry>, listening: bool)

  class ServiceChildProcessRegistry {
    var peers: map<Peer, PeerState>
    ghost var logs: map<Peer, seq<Report>>

    ghost predicate Valid()
      reads this
    {
      peers.Keys <= logs.Keys && forall p :: p in peers ==> Reflects(peers[p].entries, logs[p])
    }

    constructor ()
      ensures Valid() && peers == map[]
    {
      peers, logs := map[], map[];
    }

    method RegisterPeer(peer: Peer)
      requires Valid()
      modifies this
      ensures Valid()
      ensures if !peer.observable || peer in old(peers) then peers == old(peers) && logs == old(logs)
              else peers == old(peers)[peer := PeerState([], true)] && logs == old(logs)[peer := []]
    {
      if !peer.observable || peer in peers { return; }
      peers := peers[peer := PeerState([], true)];
      logs := logs[peer := []];
      assert Reflects([], []);
    }

    /** Messages reach the entries until the channel closed or the entries were taken. */
    method HandleMessage(peer: Peer, report: Report)
      requires Valid()
      modifies this
      ensures Valid() && peers.Keys == old(peers.Keys)
      ensures logs == if peer in peers && old(peers[peer].listening)
                      then old(logs)[peer := old(logs[peer]) + [report]] else old(logs)
    {
      if peer !in peers || !peers[peer].listening { return; }
      var entries := Take(peers[peer].entries, report, logs[peer]);
      peers := peers[peer := PeerState(entries, true)];
      logs := logs[peer := logs[peer] + [report]];
    }

    static method Take(entries: seq<ProcessEntry>, report: Report, ghost log: seq<Report>) returns (r: seq<ProcessEntry>)
      requires Reflects(entries, log)
      ensures Reflects(r, log + [report])
    {
      r := entries;
      assert (log + [report])[..|log|] == log;
      match report.message {
        case Ended(pid) =>
          if IsSafeId(pid) {
            DropMembers(entries, pid);
            r := Drop(entries, pid);
          }
        case Started(pid, kind) =>
          var entry := ToEntry(pid, kind);
          if entry.Some? && !report.identity.Absent? && !report.identity.Zombie? {
            var e := entry.value.(startTime := if report.identity.Running? then Some(report.identity.startTime) else None);
            PutMembers(entries, e);
            r := Put(entries, e);
          }
        case _ =>
      }
    }

    /** The channel of the child closed. */
    method StopListening(peer: Peer)
      requires Valid()
      modifies this
      ensures Valid() && logs == old(logs)
      ensures peers == if peer in old(peers) then old(peers)[peer := old(peers[peer]).(listening := false)] else old(peers)
    {
      if peer in peers { peers := peers[peer := peers[peer].(listening := false)]; }
    }

    /** Called once the channel closed or the time to wait for that is over. */
    method TakeEntries(peer: Peer) returns (entries: seq<ProcessEntry>)
      requires Valid()
      modifies this
      ensures Valid() && peers == old(peers) - {peer} && logs == old(logs)
      ensures if peer in old(peers) then Reflects(entries, old(logs)[peer]) else entries == []
    {
      if peer !in peers { return []; }
      StopListening(peer);
      entries := peers[peer].entries;
      peers := peers - {peer};
      assert peers == old(peers) - {peer};
    }
  }
}
