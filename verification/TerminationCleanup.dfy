/**
 The cleanup after a service child ended (src/model/ServiceChildTerminationCleanup.ts) as a
 state machine. `cleanUp` runs in steps between its awaits while the cap timer may fire at
 any point; the run ends with whichever comes first and then releases the leases. Steps of a
 `cleanUp` that lost the race go on afterwards.
 */
module TerminationCleanup {
  import opened Options
  import opened ProcessReports
  import opened StagedStop
  import opened OutputDeletion

  /** What one check found out, or that finding out failed. `liveMember` may be unreadable. */
  datatype Observation =
    | CheckThrew
    | Observed(identity: Identity, isAlive: bool, liveMember: Option<bool>, groupAlive: bool)

  function SameProcessAlive(e: ProcessEntry, o: Observation): Option<bool> {
    match o
    case CheckThrew => None
    case Observed(identity, isAlive, liveMember, groupAlive) =>
      if e.kind.Hls? then
        if identity.Running? && e.startTime.Some? then Some(identity.startTime == e.startTime.value)
        else if liveMember.Some? then liveMember
        else Some(groupAlive)
      else
        match identity
        case Running(startTime) => Some(e.startTime.None? || startTime == e.startTime.value)
        case Unavailable => Some(isAlive)
        case _ => Some(false)
  }

  /** Another process has the pid by now: it started at another time. */
  predicate IsAnother(e: ProcessEntry, o: Observation) {
    o.Observed? && o.identity.Running? && e.startTime.Some? && o.identity.startTime != e.startTime.value
  }

  /** The process is absent or a zombie, or the group has no live member, or no process answers to the bare pid. */
  predicate IsNoMore(e: ProcessEntry, o: Observation) {
    && o.Observed?
    && if e.kind.Hls?
       then !(o.identity.Running? && e.startTime.Some?)
            && (o.liveMember == Some(false) || (o.liveMember.None? && !o.groupAlive))
       else o.identity.Absent? || o.identity.Zombie? || (o.identity.Unavailable? && !o.isAlive)
  }

  predicate ShowsGone(e: ProcessEntry, o: Observation) {
    IsAnother(e, o) || IsNoMore(e, o)
  }

  /** A check answers false exactly if it showed the process gone; a failed check never does. */
  lemma GoneExactly(e: ProcessEntry, o: Observation)
    ensures SameProcessAlive(e, o) == Some(false) <==> ShowsGone(e, o)
  {
  }

  /** The answers of successive checks of one process. */
  function Answers(e: ProcessEntry, observations: seq<Observation>): (answers: seq<Option<bool>>)
    ensures |answers| == |observations|
  {
    seq(|observations|, k requires 0 <= k < |observations| => SameProcessAlive(e, observations[k]))
  }

  /** An encode request as stored: its id, the file it reads and the output it was writing. */
  datatype EncodeRecord = EncodeRecord(id: int, sourceVideoFileId: int, outputPath: Option<Path>)

  /** An output up for removal, and what was read to decide on it. */
  datatype Removal = Removal(path: Path, sourceVideoFileId: int, reading: Reading)

  datatype Pc =
    | Taking
    | Stopping
    | Polling
    | Listing
    | Judging(ids: seq<int>)
    | Removing(ids: seq<int>)
    | DeletingHls
    | Over
    | Broken

  datatype Race = Undecided | Done | Failed | Cap

  datatype Cleanup = Cleanup(
    removeInterruptedOutput: bool,
    pc: Pc,
    entries: seq<ProcessEntry>,
    outcomes: map<nat, StopOutcome>,
    evidence: map<nat, Observation>,
    remaining: seq<nat>,
    records: seq<EncodeRecord>,
    race: Race,
    cancelled: bool,
    releases: nat,
    judged: seq<Removal>,
    removals: seq<Removal>,
    hlsDeletions: nat)

  function Start(removeInterruptedOutput: bool): Cleanup {
    Cleanup(removeInterruptedOutput, Taking, [], map[], map[], [], [], Undecided, false, 0, [], [], 0)
  }

  datatype Event =
    | Took(taken: seq<ProcessEntry>)
    | Stopped(index: nat, observations: seq<Observation>)
    | Polled(observations: seq<Observation>)
    | Listed(stored: Option<seq<EncodeRecord>>)
    | Judged(reading: Reading)
    | Removed
    | HlsDeleted
    | Broke
    | CapFired
    | RaceNoticed
    | Finished

  function Signals(e: ProcessEntry): nat {
    if e.kind.Hls? then 2 else 1
  }

  predicate AllStopped(c: Cleanup) {
    forall i :: 0 <= i < |c.entries| ==> i in c.outcomes
  }

  /** The indexes from `i` on of the processes that ran and were not seen to end. */
  function Unconfirmed(c: Cleanup, i: nat): seq<nat>
    requires AllStopped(c) && i <= |c.entries|
    decreases |c.entries| - i
  {
    if i == |c.entries| then []
    else if c.outcomes[i].wasRunning && !c.outcomes[i].exitConfirmed then [i] + Unconfirmed(c, i + 1)
    else Unconfirmed(c, i + 1)
  }

  /** The encode requests from `i` on whose process ran when stopping began. */
  function RunningEncodes(c: Cleanup, i: nat): seq<int>
    requires AllStopped(c) && i <= |c.entries|
    decreases |c.entries| - i
  {
    if i == |c.entries| then []
    else if c.outcomes[i].wasRunning && c.entries[i].kind.Encode?
    then [c.entries[i].kind.encodeId] + RunningEncodes(c, i + 1)
    else RunningEncodes(c, i + 1)
  }

  /** The head of the wait loop. */
  function WaitLoop(c: Cleanup): Cleanup
    requires AllStopped(c)
  {
    if c.remaining != [] && !c.cancelled then c.(pc := Polling) else Outputs(c)
  }

  function Outputs(c: Cleanup): Cleanup
    requires AllStopped(c)
  {
    if RunningEncodes(c, 0) == [] || !c.removeInterruptedOutput then Hls(c)
    else c.(pc := Listing)
  }

  function Find(records: seq<EncodeRecord>, id: int): Option<EncodeRecord> {
    if records == [] then None
    else if records[0].id == id then Some(records[0])
    else Find(records[1..], id)
  }

  function OutputOf(c: Cleanup, id: int): Option<Path> {
    var record := Find(c.records, id);
    if record.None? then None else record.value.outputPath
  }

  /** The output at the head of the loop is up for a decision. */
  predicate AtOutput(c: Cleanup) {
    c.pc.Judging? && c.pc.ids != [] && OutputOf(c, c.pc.ids[0]).Some?
  }

  function RemovalAt(c: Cleanup, reading: Reading): Removal
    requires AtOutput(c)
  {
    var record := Find(c.records, c.pc.ids[0]).value;
    Removal(record.outputPath.value, record.sourceVideoFileId, reading)
  }

  /** The head of the loop over the interrupted encodes. */
  function NextOutput(c: Cleanup, ids: seq<int>): Cleanup {
    if ids == [] then Hls(c)
    else if OutputOf(c, ids[0]).None? then NextOutput(c, ids[1..])
    else c.(pc := Judging(ids))
  }

  function Hls(c: Cleanup): Cleanup {
    if c.cancelled then c.(pc := Over)
    else c.(pc := DeletingHls, hlsDeletions := c.hlsDeletions + 1)
  }

  /** Each remaining index is that of a process, and has one check. */
  predicate PollFits(c: Cleanup, observations: seq<Observation>) {
    |observations| == |c.remaining| && forall k :: 0 <= k < |c.remaining| ==> c.remaining[k] < |c.entries|
  }

  /** Keeps the indexes whose check did not answer exactly `false`. */
  function StillThere(entries: seq<ProcessEntry>, remaining: seq<nat>, observations: seq<Observation>): seq<nat>
    requires |observations| == |remaining| && forall k :: 0 <= k < |remaining| ==> remaining[k] < |entries|
  {
    if remaining == [] then []
    else (if SameProcessAlive(entries[remaining[0]], observations[0]) != Some(false) then [remaining[0]] else [])
         + StillThere(entries, remaining[1..], observations[1..])
  }

  /** The indexes whose check answered exactly `false`, with what it saw. */
  function GoneNow(entries: seq<ProcessEntry>, remaining: seq<nat>, observations: seq<Observation>): map<nat, Observation>
    requires |observations| == |remaining| && forall k :: 0 <= k < |remaining| ==> remaining[k] < |entries|
  {
    if remaining == [] then map[]
    else
      var rest := GoneNow(entries, remaining[1..], observations[1..]);
      if SameProcessAlive(entries[remaining[0]], observations[0]) == Some(false) then rest[remaining[0] := observations[0]] else rest
  }

  /** The first check that answered exactly `false`. */
  function FirstGone(answers: seq<Option<bool>>): (k: nat)
    requires SeenGone(answers, |answers|)
    ensures k < |answers| && answers[k] == Some(false)
  {
    if answers[0] == Some(false) then 0
    else
      var k :| 0 <= k < |answers| && Answer(answers, k) == Some(false);
      assert Answer(answers[1..], k - 1) == Some(false);
      1 + FirstGone(answers[1..])
  }

  /** The process with the index was stopped, or not, as the checks answered. */
  ghost function OnStopped(c: Cleanup, i: nat, observations: seq<Observation>): Cleanup
    requires i < |c.entries|
  {
    var answers := Answers(c.entries[i], observations);
    var outcome := Outcome(answers, Signals(c.entries[i]));
    var stopped := c.(outcomes := c.outcomes[i := outcome]);
    AfterStop(if outcome.exitConfirmed then stopped.(evidence := c.evidence[i := observations[FirstGone(answers)]]) else stopped)
  }

  ghost function OnPolled(c: Cleanup, observations: seq<Observation>): Cleanup
    requires AllStopped(c) && PollFits(c, observations)
  {
    WaitLoop(c.(remaining := StillThere(c.entries, c.remaining, observations),
                evidence := c.evidence + GoneNow(c.entries, c.remaining, observations)))
  }

  ghost function OnListed(c: Cleanup, stored: Option<seq<EncodeRecord>>): Cleanup
    requires AllStopped(c)
  {
    if stored.None? then Hls(c) else NextOutput(c.(records := stored.value), RunningEncodes(c, 0))
  }

  function AfterJudged(c: Cleanup, reading: Reading): Cleanup
    requires AtOutput(c)
  {
    c.(judged := c.judged + [RemovalAt(c, reading)])
  }

  ghost function OnJudged(c: Cleanup, reading: Reading): Cleanup
    requires AtOutput(c)
  {
    var removal, d := RemovalAt(c, reading), AfterJudged(c, reading);
    if !Deletable(reading, removal.sourceVideoFileId, removal.path) then NextOutput(d, c.pc.ids[1..])
    else if c.cancelled then Hls(d)
    else d.(pc := Removing(c.pc.ids[1..]), removals := c.removals + [removal])
  }

  /** One step; an event that cannot happen in the state changes nothing. */
  ghost function Step(c: Cleanup, e: Event): Cleanup {
    match e
    case Took(taken) =>
      if c.pc.Taking? then AfterStop(c.(pc := Stopping, entries := taken)) else c
    case Stopped(i, observations) =>
      if c.pc.Stopping? && i < |c.entries| && i !in c.outcomes then OnStopped(c, i, observations) else c
    case Polled(observations) =>
      if c.pc.Polling? && AllStopped(c) && PollFits(c, observations) then OnPolled(c, observations) else c
    case Listed(stored) =>
      if c.pc.Listing? && AllStopped(c) then OnListed(c, stored) else c
    case Judged(reading) =>
      if AtOutput(c) then OnJudged(c, reading) else c
    case Removed =>
      if c.pc.Removing? then NextOutput(c, c.pc.ids) else c
    case HlsDeleted =>
      if c.pc.DeletingHls? then c.(pc := Over) else c
    case Broke =>
      if c.pc.Over? then c else c.(pc := Broken)
    case CapFired =>
      if c.race.Undecided? then c.(race := Cap) else c
    case RaceNoticed =>
      if !c.race.Undecided? then c
      else if c.pc.Over? then c.(race := Done)
      else if c.pc.Broken? then c.(race := Failed)
      else c
    case Finished =>
      if c.race.Undecided? || c.cancelled then c
      else c.(cancelled := true, releases := c.releases + 1)
  }

  function AfterStop(c: Cleanup): Cleanup {
    if AllStopped(c) then WaitLoop(c.(remaining := Unconfirmed(c, 0))) else c
  }

  ghost function Run(removeInterruptedOutput: bool, events: seq<Event>): Cleanup {
    if events == [] then Start(removeInterruptedOutput)
    else Step(Run(removeInterruptedOutput, events[..|events| - 1]), events[|events| - 1])
  }

  /** Every process that was taken had some check that showed it gone. */
  ghost predicate AllSeenGone(c: Cleanup) {
    forall i :: 0 <= i < |c.entries| ==> i in c.evidence && ShowsGone(c.entries[i], c.evidence[i])
  }

  /** The first of the records with the id is number `n`. */
  ghost predicate FirstRecord(records: seq<EncodeRecord>, n: nat, id: int) {
    n < |records| && records[n].id == id && forall k :: 0 <= k < n ==> records[k].id != id
  }

  /** Process `i` is an encode that ran when it was stopped. */
  ghost predicate RanEncode(c: Cleanup, i: nat) {
    i < |c.entries| && i in c.outcomes && c.outcomes[i].wasRunning && c.entries[i].kind.Encode?
  }

  /** Such an encode and the first record with its id, if that names an output. */
  ghost predicate NamesOutput(c: Cleanup, i: nat, n: nat) {
    RanEncode(c, i) && FirstRecord(c.records, n, c.entries[i].kind.encodeId) && c.records[n].outputPath.Some?
  }

  /** The output, and the file it was made from, of the first record stored for such an encode. */
  ghost predicate InterruptedOutput(c: Cleanup, i: nat, n: nat, r: Removal) {
    && RanEncode(c, i) && FirstRecord(c.records, n, c.entries[i].kind.encodeId)
    && c.records[n].outputPath == Some(r.path) && c.records[n].sourceVideoFileId == r.sourceVideoFileId
  }

  ghost predicate OwnInterruptedOutput(c: Cleanup, r: Removal) {
    exists i: nat, n: nat :: InterruptedOutput(c, i, n, r)
  }

  /** The removal is of such an output, and was decided on what was read. */
  ghost predicate Justified(c: Cleanup, r: Removal) {
    OwnInterruptedOutput(c, r) && Deletable(r.reading, r.sourceVideoFileId, r.path)
  }

  lemma {:induction false} FindIsFirst(records: seq<EncodeRecord>, id: int)
    ensures Find(records, id).None? ==> forall n: nat :: !FirstRecord(records, n, id)
    ensures Find(records, id).Some? ==> exists n: nat :: FirstRecord(records, n, id) && records[n] == Find(records, id).value
    ensures forall m: nat, n: nat :: FirstRecord(records, m, id) && FirstRecord(records, n, id) ==> m == n
  {
    if records != [] && records[0].id != id {
      FindIsFirst(records[1..], id);
      forall n: nat | FirstRecord(records, n, id) ensures n > 0 && FirstRecord(records[1..], n - 1, id) {
        assert forall k :: 0 <= k < n - 1 ==> records[1..][k] == records[k + 1];
      }
      if Find(records[1..], id).Some? {
        var n: nat :| FirstRecord(records[1..], n, id) && records[1..][n] == Find(records[1..], id).value;
        assert FirstRecord(records, n + 1, id);
      }
    } else if records != [] {
      assert FirstRecord(records, 0, id);
    }
  }

  ghost predicate IdsOfRunningEncodes(c: Cleanup, ids: seq<int>) {
    forall id :: id in ids ==>
      exists i :: 0 <= i < |c.entries| && i in c.outcomes && c.outcomes[i].wasRunning
                  && c.entries[i].kind.Encode? && c.entries[i].kind.encodeId == id
  }

  /** What holds whatever `cleanUp` is doing. */
  ghost predicate Sound(c: Cleanup) {
    && (forall i :: i in c.outcomes && c.outcomes[i].exitConfirmed ==> i in c.evidence)
    && (forall i :: i in c.outcomes && !c.outcomes[i].wasRunning ==> c.outcomes[i].exitConfirmed)
    && (forall i :: i in c.evidence ==> i < |c.entries| && ShowsGone(c.entries[i], c.evidence[i]))
    && (forall r :: r in c.removals ==> Justified(c, r))
    && (JudgedRemoved(c) || c.cancelled)
    && (c.removals != [] ==> c.removeInterruptedOutput)
    && (c.cancelled ==> !c.race.Undecided?)
    && c.releases == (if c.cancelled then 1 else 0)
    && c.hlsDeletions <= 1
  }

  /** `cleanUp` has neither ended nor failed, so the race can only be lost to the cap. */
  ghost predicate Unfinished(c: Cleanup) {
    !c.race.Done? && !c.race.Failed? && c.hlsDeletions == 0
  }

  /** All processes are seen gone, unless the wait was broken off. */
  ghost predicate WaitIsOver(c: Cleanup) {
    AllStopped(c) && (AllSeenGone(c) || c.cancelled)
  }

  /** Whatever is not seen gone is still polled. */
  ghost predicate RemainingCovers(c: Cleanup) {
    && (forall i :: 0 <= i < |c.entries| ==> i in c.evidence || i in c.remaining)
    && (forall k :: 0 <= k < |c.remaining| ==> c.remaining[k] < |c.entries|)
  }

  /** Whatever was found deletable is removed. */
  ghost predicate JudgedRemoved(c: Cleanup) {
    forall r :: r in c.judged && Deletable(r.reading, r.sourceVideoFileId, r.path) ==> r in c.removals
  }

  /** Record `n`, which names an output, was decided on. */
  ghost predicate IsJudged(c: Cleanup, n: nat)
    requires n < |c.records|
  {
    exists r :: r in c.judged && c.records[n].outputPath == Some(r.path) && c.records[n].sourceVideoFileId == r.sourceVideoFileId
  }

  /** The output of each encode that ran was decided on, but for those with one of the ids. */
  ghost predicate Decided(c: Cleanup, ids: seq<int>) {
    forall i: nat, n: nat :: NamesOutput(c, i, n)
      ==> c.entries[i].kind.encodeId in ids || IsJudged(c, n)
  }

  /** Nothing is left to do: all outputs are decided on, the deletable ones removed, and HLS deletion has begun. */
  ghost predicate Completed(c: Cleanup) {
    Decided(c, []) && JudgedRemoved(c) && c.hlsDeletions == 1
  }

  /** Records have not been read yet. */
  ghost predicate Unread(c: Cleanup) {
    Unfinished(c) && c.records == [] && c.judged == [] && c.removals == []
  }

  ghost predicate AtEncodes(c: Cleanup, ids: seq<int>) {
    Unfinished(c) && WaitIsOver(c) && IdsOfRunningEncodes(c, ids) && Decided(c, ids) && c.removeInterruptedOutput
  }

  ghost predicate Valid(c: Cleanup) {
    Sound(c) &&
    match c.pc
    case Taking => Unread(c) && c.entries == [] && c.outcomes == map[] && c.evidence == map[]
    case Stopping => Unread(c)
    case Polling => Unread(c) && AllStopped(c) && RemainingCovers(c)
    case Listing => Unread(c) && WaitIsOver(c) && c.removeInterruptedOutput
    case Judging(ids) => AtEncodes(c, ids)
    case Removing(ids) => AtEncodes(c, ids)
    case DeletingHls => !c.race.Done? && !c.race.Failed? && WaitIsOver(c) && Completed(c)
    case Over => !c.race.Failed? && WaitIsOver(c) && (c.cancelled || Completed(c))
                 && (c.race.Done? ==> AllSeenGone(c) && Completed(c))
    case Broken => !c.race.Done?
  }

  lemma {:induction false} UnconfirmedMembers(c: Cleanup, i: nat)
    requires AllStopped(c) && i <= |c.entries|
    ensures forall k :: i <= k < |c.entries| && c.outcomes[k].wasRunning && !c.outcomes[k].exitConfirmed
              ==> k in Unconfirmed(c, i)
    ensures forall n :: 0 <= n < |Unconfirmed(c, i)| ==> Unconfirmed(c, i)[n] < |c.entries|
    decreases |c.entries| - i
  {
    if i < |c.entries| { UnconfirmedMembers(c, i + 1); }
  }

  lemma {:induction false} RunningEncodesMembers(c: Cleanup, i: nat)
    requires AllStopped(c) && i <= |c.entries|
    ensures IdsOfRunningEncodes(c, RunningEncodes(c, i))
    ensures forall k :: i <= k < |c.entries| && RanEncode(c, k) ==> c.entries[k].kind.encodeId in RunningEncodes(c, i)
    decreases |c.entries| - i
  {
    if i < |c.entries| { RunningEncodesMembers(c, i + 1); }
  }

  lemma {:induction false} StillThereMembers(entries: seq<ProcessEntry>, remaining: seq<nat>, observations: seq<Observation>)
    requires |observations| == |remaining| && forall k :: 0 <= k < |remaining| ==> remaining[k] < |entries|
    ensures var there, gone := StillThere(entries, remaining, observations), GoneNow(entries, remaining, observations);
      && (forall i :: i in remaining ==> i in there || i in gone)
      && (forall k :: 0 <= k < |there| ==> there[k] < |entries|)
      && (forall i :: i in gone ==> i < |entries| && SameProcessAlive(entries[i], gone[i]) == Some(false))
  {
    if remaining != [] {
      assert remaining == [remaining[0]] + remaining[1..];
      StillThereMembers(entries, remaining[1..], observations[1..]);
    }
  }

  lemma SameOutputs(c: Cleanup, d: Cleanup)
    requires c.entries == d.entries && c.records == d.records && c.outcomes == d.outcomes
    ensures forall r :: Justified(c, r) <==> Justified(d, r)
    ensures forall ids :: IdsOfRunningEncodes(c, ids) <==> IdsOfRunningEncodes(d, ids)
    ensures c.judged == d.judged ==> forall ids :: Decided(c, ids) <==> Decided(d, ids)
  {
    forall r ensures Justified(c, r) <==> Justified(d, r) {
      forall i: nat, n: nat ensures InterruptedOutput(c, i, n, r) <==> InterruptedOutput(d, i, n, r) { }
    }
    if c.judged == d.judged {
      forall ids ensures Decided(c, ids) <==> Decided(d, ids) {
        SameDecided(c, d, ids);
        SameDecided(d, c, ids);
      }
    }
  }

  lemma SameDecided(c: Cleanup, d: Cleanup, ids: seq<int>)
    requires c.entries == d.entries && c.records == d.records && c.outcomes == d.outcomes && c.judged == d.judged
    ensures Decided(c, ids) ==> Decided(d, ids)
  {
    if Decided(c, ids) {
      forall i: nat, n: nat | NamesOutput(d, i, n) ensures d.entries[i].kind.encodeId in ids || IsJudged(d, n) {
        assert NamesOutput(c, i, n);
        assert IsJudged(c, n) <==> IsJudged(d, n);
      }
    }
  }

  lemma HlsKeeps(c: Cleanup)
    requires Sound(c) && Unfinished(c) && WaitIsOver(c) && (c.cancelled || Decided(c, []))
    ensures Valid(Hls(c))
  {
    SameOutputs(c, Hls(c));
  }

  /** Without records there is nothing to decide on. */
  lemma UnreadDecided(c: Cleanup, ids: seq<int>)
    requires c.records == []
    ensures Decided(c, ids)
  {
  }

  /** Whether the first id has an output to decide on does not matter once it was looked at. */
  lemma NextDecided(c: Cleanup, ids: seq<int>)
    requires ids != [] && Decided(c, ids)
    requires OutputOf(c, ids[0]).Some? ==> forall n: nat :: FirstRecord(c.records, n, ids[0]) ==> IsJudged(c, n)
    ensures Decided(c, ids[1..])
  {
    FindIsFirst(c.records, ids[0]);
    forall i: nat, n: nat | NamesOutput(c, i, n)
      ensures c.entries[i].kind.encodeId in ids[1..] || IsJudged(c, n)
    {
      if c.entries[i].kind.encodeId == ids[0] {
        assert OutputOf(c, ids[0]).Some?;
      } else {
        assert c.entries[i].kind.encodeId in ids ==> c.entries[i].kind.encodeId in ids[1..];
      }
    }
  }

  lemma {:induction false} NextOutputKeeps(c: Cleanup, ids: seq<int>)
    requires Sound(c) && AtEncodes(c, ids)
    ensures Valid(NextOutput(c, ids))
  {
    if ids == [] {
      HlsKeeps(c);
    } else if OutputOf(c, ids[0]).None? {
      assert forall id :: id in ids[1..] ==> id in ids;
      NextDecided(c, ids);
      NextOutputKeeps(c, ids[1..]);
    } else {
      SameOutputs(c, NextOutput(c, ids));
    }
  }

  lemma WaitLoopKeeps(c: Cleanup)
    requires Sound(c) && Unread(c) && AllStopped(c) && RemainingCovers(c)
    ensures Valid(WaitLoop(c))
  {
    UnreadDecided(c, []);
    if c.remaining == [] || c.cancelled { HlsKeeps(c); }
  }

  lemma AfterStopKeeps(c: Cleanup)
    requires Sound(c) && Unread(c) && c.pc.Stopping?
    ensures Valid(AfterStop(c))
  {
    if AllStopped(c) {
      UnconfirmedMembers(c, 0);
      WaitLoopKeeps(c.(remaining := Unconfirmed(c, 0)));
    }
  }

  /** A process that was not running, or was stopped, had a check that showed it gone. */
  lemma OutcomeShows(e: ProcessEntry, observations: seq<Observation>)
    ensures var answers := Answers(e, observations); var outcome := Outcome(answers, Signals(e));
      && (!outcome.wasRunning ==> outcome.exitConfirmed)
      && (outcome.exitConfirmed ==> SeenGone(answers, |answers|) && ShowsGone(e, observations[FirstGone(answers)]))
  {
    var answers := Answers(e, observations);
    var made := 1 + Signals(e) * CHECKS_PER_SIGNAL;
    assert Answer(answers, 0) == Some(false) ==> SeenGone(answers, made);
    if SeenGone(answers, made) {
      var k: nat :| k < made && Answer(answers, k) == Some(false);
      assert k < |answers| && SeenGone(answers, |answers|);
      GoneExactly(e, observations[FirstGone(answers)]);
    }
  }

  /**
   A process ran exactly if the first check did not show it gone, and its exit is confirmed exactly if one
   of the checks did: one before the first signal, and three after each, two for an HLS writer and one else.
   */
  lemma OutcomeExactly(e: ProcessEntry, observations: seq<Observation>)
    ensures var outcome := Outcome(Answers(e, observations), Signals(e));
      && (outcome.wasRunning <==> observations == [] || !ShowsGone(e, observations[0]))
      && (outcome.exitConfirmed <==>
            exists k: nat :: k < |observations| && k < (if e.kind.Hls? then 7 else 4) && ShowsGone(e, observations[k]))
  {
    var answers := Answers(e, observations);
    forall k: nat ensures Answer(answers, k) == Some(false) <==> k < |observations| && ShowsGone(e, observations[k]) {
      if k < |observations| { GoneExactly(e, observations[k]); }
    }
  }

  lemma StoppedKeeps(c: Cleanup, i: nat, observations: seq<Observation>)
    requires Valid(c) && c.pc.Stopping? && i < |c.entries| && i !in c.outcomes
    ensures Valid(OnStopped(c, i, observations))
  {
    OutcomeShows(c.entries[i], observations);
    var answers := Answers(c.entries[i], observations);
    var outcome := Outcome(answers, Signals(c.entries[i]));
    var stopped := c.(outcomes := c.outcomes[i := outcome]);
    AfterStopKeeps(if outcome.exitConfirmed then stopped.(evidence := c.evidence[i := observations[FirstGone(answers)]]) else stopped);
  }

  lemma PolledKeeps(c: Cleanup, observations: seq<Observation>)
    requires Valid(c) && c.pc.Polling? && PollFits(c, observations)
    ensures Valid(OnPolled(c, observations))
  {
    StillThereMembers(c.entries, c.remaining, observations);
    var gone := GoneNow(c.entries, c.remaining, observations);
    forall i | i in gone ensures ShowsGone(c.entries[i], gone[i]) { GoneExactly(c.entries[i], gone[i]); }
    WaitLoopKeeps(c.(remaining := StillThere(c.entries, c.remaining, observations), evidence := c.evidence + gone));
  }

  lemma ListedKeeps(c: Cleanup, stored: Option<seq<EncodeRecord>>)
    requires Valid(c) && c.pc.Listing?
    ensures Valid(OnListed(c, stored))
  {
    if stored.None? {
      UnreadDecided(c, []);
      HlsKeeps(c);
    } else {
      RunningEncodesMembers(c, 0);
      NextOutputKeeps(c.(records := stored.value), RunningEncodes(c, 0));
    }
  }

  /** The output at the head of the loop is an interrupted one. */
  lemma RemovalIsOwn(c: Cleanup, reading: Reading)
    requires AtOutput(c) && IdsOfRunningEncodes(c, c.pc.ids)
    ensures OwnInterruptedOutput(c, RemovalAt(c, reading))
  {
    var id := c.pc.ids[0];
    FindIsFirst(c.records, id);
    var n: nat :| FirstRecord(c.records, n, id) && c.records[n] == Find(c.records, id).value;
    assert id in c.pc.ids;
    var i: nat :| i < |c.entries| && i in c.outcomes && c.outcomes[i].wasRunning
             && c.entries[i].kind.Encode? && c.entries[i].kind.encodeId == id;
    assert InterruptedOutput(c, i, n, RemovalAt(c, reading));
  }

  lemma JudgedDecides(c: Cleanup, reading: Reading)
    requires AtOutput(c) && AtEncodes(c, c.pc.ids)
    ensures AtEncodes(AfterJudged(c, reading), c.pc.ids[1..])
  {
    var d, ids, removal := AfterJudged(c, reading), c.pc.ids, RemovalAt(c, reading);
    SameOutputs(c, d);
    assert forall id :: id in ids[1..] ==> id in ids;
    assert removal in d.judged && forall r :: r in c.judged ==> r in d.judged;
    forall n: nat | n < |c.records| && IsJudged(c, n) ensures IsJudged(d, n) { }
    assert Decided(d, ids) by {
      forall i: nat, n: nat | NamesOutput(d, i, n)
        ensures d.entries[i].kind.encodeId in ids || IsJudged(d, n)
      {
        assert RanEncode(c, i);
      }
    }
    FindIsFirst(c.records, ids[0]);
    forall n: nat | FirstRecord(d.records, n, ids[0]) ensures IsJudged(d, n) {
      assert c.records[n] == Find(c.records, ids[0]).value;
    }
    NextDecided(d, ids);
  }

  lemma JudgedKeeps(c: Cleanup, reading: Reading)
    requires Valid(c) && AtOutput(c)
    ensures Valid(OnJudged(c, reading))
  {
    var removal, d := RemovalAt(c, reading), AfterJudged(c, reading);
    JudgedDecides(c, reading);
    RemovalIsOwn(c, reading);
    SameOutputs(c, d);
    if !Deletable(reading, removal.sourceVideoFileId, removal.path) {
      NextOutputKeeps(d, c.pc.ids[1..]);
    } else if c.cancelled {
      HlsKeeps(d);
    } else {
      SameOutputs(d, OnJudged(c, reading));
    }
  }

  lemma StepKeeps(c: Cleanup, e: Event)
    requires Valid(c)
    ensures Valid(Step(c, e))
  {
    match e
    case Took(taken) =>
      if c.pc.Taking? { AfterStopKeeps(c.(pc := Stopping, entries := taken)); }
    case Stopped(i, observations) =>
      if c.pc.Stopping? && i < |c.entries| && i !in c.outcomes { StoppedKeeps(c, i, observations); }
    case Polled(observations) =>
      if c.pc.Polling? && PollFits(c, observations) { PolledKeeps(c, observations); }
    case Listed(stored) =>
      if c.pc.Listing? { ListedKeeps(c, stored); }
    case Judged(reading) =>
      if AtOutput(c) { JudgedKeeps(c, reading); }
    case Removed =>
      if c.pc.Removing? { NextOutputKeeps(c, c.pc.ids); }
    case HlsDeleted => EndKeeps(c, e);
    case Broke => EndKeeps(c, e);
    case Finished => FinishedKeeps(c);
    case _ => RaceKeeps(c, e);
  }

  lemma EndKeeps(c: Cleanup, e: Event)
    requires Valid(c) && (e.HlsDeleted? || e.Broke?)
    ensures Valid(Step(c, e))
  {
    SameOutputs(c, Step(c, e));
  }

  lemma FinishedKeeps(c: Cleanup)
    requires Valid(c)
    ensures Valid(Step(c, Finished))
  {
    SameOutputs(c, Step(c, Finished));
  }

  lemma RaceKeeps(c: Cleanup, e: Event)
    requires Valid(c) && (e.CapFired? || e.RaceNoticed?)
    ensures Valid(Step(c, e))
  {
    SameOutputs(c, Step(c, e));
  }

  /** In every run, under every interleaving of the cap with the steps of `cleanUp`. */
  lemma {:induction false} RunKeeps(removeInterruptedOutput: bool, events: seq<Event>)
    ensures Valid(Run(removeInterruptedOutput, events))
  {
    if events != [] {
      RunKeeps(removeInterruptedOutput, events[..|events| - 1]);
      StepKeeps(Run(removeInterruptedOutput, events[..|events| - 1]), events[|events| - 1]);
    }
  }

  /** Nothing that matters after cancellation differs. */
  ghost predicate SameEffects(c: Cleanup, d: Cleanup) {
    d.cancelled && d.removals == c.removals && d.hlsDeletions == c.hlsDeletions && d.releases == c.releases
  }

  lemma {:induction false} NextOutputStartsNothing(c: Cleanup, ids: seq<int>)
    requires c.cancelled
    ensures SameEffects(c, NextOutput(c, ids))
  {
    if ids != [] { NextOutputStartsNothing(c, ids[1..]); }
  }

  /** After the cap, a failure or the end, no removal of an output and no HLS deletion begins. */
  lemma NothingBeginsAfterCancellation(c: Cleanup, e: Event)
    requires c.cancelled
    ensures SameEffects(c, Step(c, e))
  {
    match e
    case Listed(stored) =>
      if c.pc.Listing? && AllStopped(c) {
        if stored.Some? {
          NextOutputStartsNothing(c.(records := stored.value), RunningEncodes(c, 0));
        } else {
          assert Step(c, e) == Hls(c);
        }
      }
    case Judged(reading) =>
      if AtOutput(c) { NextOutputStartsNothing(AfterJudged(c, reading), c.pc.ids[1..]); }
    case Removed =>
      if c.pc.Removing? { NextOutputStartsNothing(c, c.pc.ids); }
    case _ =>
  }

  /**
   The run ends by releasing the leases exactly once. It ends without the cap and without a failure
   only when each process was seen absent, a zombie, without live members or with another start time.
   Each removed path is the output named by the first record with the id of an encode that ran, lies
   strictly under its parent directory and is no registered file, while the file it was made from is one.
   */
  lemma EndOfRun(removeInterruptedOutput: bool, events: seq<Event>)
    ensures var c := Run(removeInterruptedOutput, events);
      && c.releases == (if c.cancelled then 1 else 0)
      && (c.cancelled ==> c.race.Cap? || c.race.Failed? || (c.race.Done? && AllSeenGone(c)))
      && (forall r :: r in c.removals ==>
            && removeInterruptedOutput && Lies(r)
            && exists i: nat, n: nat :: InterruptedOutput(c, i, n, r))
  {
    RunKeeps(removeInterruptedOutput, events);
    SettingIsFixed(removeInterruptedOutput, events);
  }

  /** Strictly under the parent directory, and no registered file, while its source is registered. */
  ghost predicate Lies(r: Removal) {
    && r.reading.parentDirPath.Some? && r.reading.parentDirPath.value < r.path
    && r.reading.files.Some? && !IsRecordedFile(r.reading.files.value, |r.reading.files.value|, r.path, r.reading.sameFile)
    && IsRegistered(r.reading.files.value, r.sourceVideoFileId)
  }

  /**
   A run that ends without the cap and without a failure has begun HLS deletion, and has decided on the
   output of every encode that ran, by the first record with its id, removing it exactly if deletable.
   */
  lemma DoneCompletes(removeInterruptedOutput: bool, events: seq<Event>)
    ensures var c := Run(removeInterruptedOutput, events);
      c.race.Done? ==>
        && c.hlsDeletions == 1
        && (forall i: nat, n: nat :: NamesOutput(c, i, n)
              ==> exists r :: r in c.judged && InterruptedOutput(c, i, n, r))
        && (forall r :: r in c.judged ==> (r in c.removals <==> Deletable(r.reading, r.sourceVideoFileId, r.path)))
  {
    RunKeeps(removeInterruptedOutput, events);
    var c := Run(removeInterruptedOutput, events);
    if c.race.Done? {
      forall i: nat, n: nat | NamesOutput(c, i, n)
        ensures exists r :: r in c.judged && InterruptedOutput(c, i, n, r)
      {
        assert IsJudged(c, n);
        var r :| r in c.judged && c.records[n].outputPath == Some(r.path) && c.records[n].sourceVideoFileId == r.sourceVideoFileId;
        assert InterruptedOutput(c, i, n, r);
      }
    }
  }

  /** Past the reading of the records, if there was any encode to read them for. */
  ghost predicate PastListing(c: Cleanup) {
    (c.pc.Judging? || c.pc.Removing? || c.pc.DeletingHls? || c.pc.Over?) && c.removeInterruptedOutput && exists i: nat :: RanEncode(c, i)
  }

  /** The records are those that some event read, unless reading failed. */
  ghost predicate Read(c: Cleanup, events: seq<Event>) {
    exists n :: 0 <= n < |events| && events[n].Listed? && (events[n].stored.None? || events[n].stored == Some(c.records))
  }

  lemma NextOutputReads(c: Cleanup, ids: seq<int>)
    ensures var d := NextOutput(c, ids); d.records == c.records && d.entries == c.entries && d.outcomes == c.outcomes
                                         && d.removeInterruptedOutput == c.removeInterruptedOutput
  {
    if ids != [] { NextOutputReads(c, ids[1..]); }
  }

  /** To decide on outputs the records were read, by this event or before. */
  lemma StepReads(c: Cleanup, e: Event)
    requires Valid(c) && PastListing(Step(c, e))
    ensures (e.Listed? && (e.stored.None? || e.stored == Some(Step(c, e).records))) || (PastListing(c) && Step(c, e).records == c.records)
  {
    match e
    case Stopped(i, observations) =>
      if c.pc.Stopping? && i < |c.entries| && i !in c.outcomes { StoppingReads(c, i, observations); }
    case Polled(observations) =>
      if c.pc.Polling? && PollFits(c, observations) { PollingReads(c, observations); }
    case Listed(stored) =>
      if c.pc.Listing? && stored.Some? { NextOutputReads(c.(records := stored.value), RunningEncodes(c, 0)); }
    case Judged(reading) =>
      if AtOutput(c) {
        NextOutputReads(AfterJudged(c, reading), c.pc.ids[1..]);
        SameEncodes(c, OnJudged(c, reading));
      }
    case Removed =>
      if c.pc.Removing? {
        NextOutputReads(c, c.pc.ids);
        SameEncodes(c, NextOutput(c, c.pc.ids));
      }
    case Took(taken) =>
      if c.pc.Taking? { TakingReads(c, taken); }
    case _ => SameEncodes(c, Step(c, e));
  }

  lemma SameEncodes(c: Cleanup, d: Cleanup)
    requires c.entries == d.entries && c.outcomes == d.outcomes
    ensures forall i: nat :: RanEncode(c, i) <==> RanEncode(d, i)
  {
  }

  lemma WaitLoopReads(c: Cleanup)
    requires AllStopped(c)
    ensures !PastListing(WaitLoop(c))
  {
    RunningEncodesMembers(c, 0);
  }

  lemma TakingReads(c: Cleanup, taken: seq<ProcessEntry>)
    requires c.pc.Taking? && c.outcomes == map[]
    ensures !PastListing(AfterStop(c.(pc := Stopping, entries := taken)))
  {
    var d := c.(pc := Stopping, entries := taken);
    if AllStopped(d) { WaitLoopReads(d.(remaining := Unconfirmed(d, 0))); }
  }

  lemma StoppingReads(c: Cleanup, i: nat, observations: seq<Observation>)
    requires c.pc.Stopping? && i < |c.entries|
    ensures !PastListing(OnStopped(c, i, observations))
  {
    var answers := Answers(c.entries[i], observations);
    var outcome := Outcome(answers, Signals(c.entries[i]));
    OutcomeShows(c.entries[i], observations);
    var stopped := c.(outcomes := c.outcomes[i := outcome]);
    var d := if outcome.exitConfirmed then stopped.(evidence := c.evidence[i := observations[FirstGone(answers)]]) else stopped;
    if AllStopped(d) { WaitLoopReads(d.(remaining := Unconfirmed(d, 0))); }
  }

  lemma PollingReads(c: Cleanup, observations: seq<Observation>)
    requires AllStopped(c) && PollFits(c, observations)
    ensures !PastListing(OnPolled(c, observations))
  {
    WaitLoopReads(c.(remaining := StillThere(c.entries, c.remaining, observations),
                     evidence := c.evidence + GoneNow(c.entries, c.remaining, observations)));
  }

  /** In every run outputs are decided on by the records that were read. */
  lemma {:induction false} RecordsWereRead(removeInterruptedOutput: bool, events: seq<Event>)
    ensures PastListing(Run(removeInterruptedOutput, events)) ==> Read(Run(removeInterruptedOutput, events), events)
  {
    if events != [] && PastListing(Run(removeInterruptedOutput, events)) {
      var last := |events| - 1;
      var c := Run(removeInterruptedOutput, events[..last]);
      RunKeeps(removeInterruptedOutput, events[..last]);
      RecordsWereRead(removeInterruptedOutput, events[..last]);
      StepReads(c, events[last]);
      if PastListing(c) {
        var n :| 0 <= n < last && events[..last][n].Listed? && (events[..last][n].stored.None? || events[..last][n].stored == Some(c.records));
        assert events[n] == events[..last][n];
      }
    }
  }

  /** What the checks of an event saw. */
  function Seen(e: Event): seq<Observation> {
    match e
    case Stopped(_, observations) => observations
    case Polled(observations) => observations
    case _ => []
  }

  /** Some event's check saw it. */
  ghost predicate SeenIn(o: Observation, events: seq<Event>) {
    exists n :: 0 <= n < |events| && o in Seen(events[n])
  }

  ghost predicate AllSeenIn(evidence: map<nat, Observation>, events: seq<Event>) {
    forall i :: i in evidence ==> SeenIn(evidence[i], events)
  }

  /** All evidence was seen by a check of the run, and every removal was decided on a reading of the run. */
  lemma {:induction false} EvidenceFromEvents(removeInterruptedOutput: bool, events: seq<Event>)
    ensures AllSeenIn(Run(removeInterruptedOutput, events).evidence, events)
    ensures forall r :: r in Run(removeInterruptedOutput, events).removals ==> Judged(r.reading) in events
  {
    if events != [] {
      var last := |events| - 1;
      var before, e := Run(removeInterruptedOutput, events[..last]), events[last];
      EvidenceFromEvents(removeInterruptedOutput, events[..last]);
      NewEvidence(before, e);
      assert e in events && forall x :: x in events[..last] ==> x in events;
      var evidence := Run(removeInterruptedOutput, events).evidence;
      forall i | i in evidence ensures SeenIn(evidence[i], events) {
        if evidence[i] in Seen(e) {
          assert evidence[i] in Seen(events[last]);
        } else {
          SeenInLonger(evidence[i], events, last);
        }
      }
    }
  }

  lemma SeenInLonger(o: Observation, events: seq<Event>, n: nat)
    requires n <= |events| && SeenIn(o, events[..n])
    ensures SeenIn(o, events)
  {
    var k :| 0 <= k < n && o in Seen(events[..n][k]);
    assert o in Seen(events[k]);
  }

  /** Only what was seen just now is new evidence, and only what was just decided is a new removal. */
  ghost predicate AddsSeen(c: Cleanup, e: Event, d: Cleanup) {
    && (forall i :: i in d.evidence ==> (i in c.evidence && d.evidence[i] == c.evidence[i]) || d.evidence[i] in Seen(e))
    && (forall r :: r in d.removals ==> r in c.removals || e == Judged(r.reading))
  }

  lemma StoppedEvidence(c: Cleanup, i: nat, observations: seq<Observation>)
    requires i < |c.entries|
    ensures AddsSeen(c, Stopped(i, observations), OnStopped(c, i, observations))
  {
    OutcomeShows(c.entries[i], observations);
  }

  lemma PolledEvidence(c: Cleanup, observations: seq<Observation>)
    requires AllStopped(c) && PollFits(c, observations)
    ensures AddsSeen(c, Polled(observations), OnPolled(c, observations))
  {
    GoneWasSeen(c.entries, c.remaining, observations);
  }

  lemma NewEvidence(c: Cleanup, e: Event)
    ensures AddsSeen(c, e, Step(c, e))
  {
    match e
    case Stopped(i, observations) =>
      if c.pc.Stopping? && i < |c.entries| && i !in c.outcomes { StoppedEvidence(c, i, observations); }
    case Polled(observations) =>
      if c.pc.Polling? && AllStopped(c) && PollFits(c, observations) { PolledEvidence(c, observations); }
    case Listed(stored) =>
      if c.pc.Listing? && AllStopped(c) && stored.Some? { NextOutputKeepsEvidence(c.(records := stored.value), RunningEncodes(c, 0)); }
    case Judged(reading) =>
      if AtOutput(c) { NextOutputKeepsEvidence(AfterJudged(c, reading), c.pc.ids[1..]); }
    case Removed =>
      if c.pc.Removing? { NextOutputKeepsEvidence(c, c.pc.ids); }
    case _ =>
  }

  ghost predicate AllFrom(evidence: map<nat, Observation>, observations: seq<Observation>) {
    forall i :: i in evidence ==> evidence[i] in observations
  }

  lemma {:induction false} GoneWasSeen(entries: seq<ProcessEntry>, remaining: seq<nat>, observations: seq<Observation>)
    requires |observations| == |remaining| && forall k :: 0 <= k < |remaining| ==> remaining[k] < |entries|
    ensures AllFrom(GoneNow(entries, remaining, observations), observations)
  {
    if remaining != [] {
      GoneWasSeen(entries, remaining[1..], observations[1..]);
      var rest := GoneNow(entries, remaining[1..], observations[1..]);
      assert AllFrom(rest, observations[1..]);
      assert forall o :: o in observations[1..] ==> o in observations;
    }
  }

  lemma {:induction false} NextOutputKeepsEvidence(c: Cleanup, ids: seq<int>)
    ensures NextOutput(c, ids).evidence == c.evidence && NextOutput(c, ids).removals == c.removals
  {
    if ids != [] { NextOutputKeepsEvidence(c, ids[1..]); }
  }

  lemma {:induction false} SettingIsFixed(removeInterruptedOutput: bool, events: seq<Event>)
    ensures Run(removeInterruptedOutput, events).removeInterruptedOutput == removeInterruptedOutput
  {
    if events != [] {
      SettingIsFixed(removeInterruptedOutput, events[..|events| - 1]);
      StepKeepsSetting(Run(removeInterruptedOutput, events[..|events| - 1]), events[|events| - 1]);
    }
  }

  lemma {:induction false} NextOutputKeepsSetting(c: Cleanup, ids: seq<int>)
    ensures NextOutput(c, ids).removeInterruptedOutput == c.removeInterruptedOutput
  {
    if ids != [] { NextOutputKeepsSetting(c, ids[1..]); }
  }

  lemma StepKeepsSetting(c: Cleanup, e: Event)
    ensures Step(c, e).removeInterruptedOutput == c.removeInterruptedOutput
  {
    match e
    case Listed(stored) =>
      if c.pc.Listing? && AllStopped(c) && stored.Some? {
        NextOutputKeepsSetting(c.(records := stored.value), RunningEncodes(c, 0));
      }
    case Judged(reading) =>
      if AtOutput(c) { NextOutputKeepsSetting(AfterJudged(c, reading), c.pc.ids[1..]); }
    case Removed =>
      if c.pc.Removing? { NextOutputKeepsSetting(c, c.pc.ids); }
    case _ =>
  }

  lemma {:induction false} NextOutputKeepsEntries(c: Cleanup, ids: seq<int>)
    ensures NextOutput(c, ids).entries == c.entries && !NextOutput(c, ids).pc.Taking? && !NextOutput(c, ids).pc.Broken?
  {
    if ids != [] { NextOutputKeepsEntries(c, ids[1..]); }
  }

  /** Only the end of the run cancels, and it is the only step that releases the leases. */
  lemma CancelledStays(c: Cleanup, e: Event)
    ensures var d := Step(c, e);
      && (c.cancelled ==> d.cancelled)
      && (!c.cancelled && d.cancelled ==> e.Finished? && d == c.(cancelled := true, releases := c.releases + 1))
      && (!(e.Finished? && !c.cancelled) ==> d.releases == c.releases)
  {
    match e
    case Listed(stored) =>
      if c.pc.Listing? && AllStopped(c) && stored.Some? {
        NextOutputNeverCancels(c.(records := stored.value), RunningEncodes(c, 0));
      }
    case Judged(reading) =>
      if AtOutput(c) { NextOutputNeverCancels(AfterJudged(c, reading), c.pc.ids[1..]); }
    case Removed =>
      if c.pc.Removing? { NextOutputNeverCancels(c, c.pc.ids); }
    case _ =>
  }

  lemma {:induction false} NextOutputNeverCancels(c: Cleanup, ids: seq<int>)
    ensures NextOutput(c, ids).cancelled == c.cancelled && NextOutput(c, ids).releases == c.releases
  {
    if ids != [] { NextOutputNeverCancels(c, ids[1..]); }
  }

  lemma StoppingKeepsEntries(c: Cleanup, i: nat, observations: seq<Observation>)
    requires c.pc.Stopping? && i < |c.entries|
    ensures var d := OnStopped(c, i, observations); d.entries == c.entries && !d.pc.Taking? && !d.pc.Broken?
  {
  }

  lemma PollingKeepsEntries(c: Cleanup, observations: seq<Observation>)
    requires AllStopped(c) && PollFits(c, observations)
    ensures var d := OnPolled(c, observations); d.entries == c.entries && !d.pc.Taking? && !d.pc.Broken?
  {
  }

  /** The processes are taken in one step and are never changed; a failure is final. */
  lemma EntriesAreTakenOnce(c: Cleanup, e: Event)
    ensures var d := Step(c, e);
      && (d.pc.Taking? ==> c.pc.Taking?)
      && (c.pc.Broken? ==> d.pc.Broken?)
      && (e.Took? && c.pc.Taking? ==> d.entries == e.taken)
      && (!(e.Took? && c.pc.Taking?) ==> d.entries == c.entries)
      && (c.pc.Taking? && !d.pc.Taking? && !d.pc.Broken? ==> e.Took?)
  {
    match e
    case Stopped(i, observations) =>
      if c.pc.Stopping? && i < |c.entries| && i !in c.outcomes { StoppingKeepsEntries(c, i, observations); }
    case Polled(observations) =>
      if c.pc.Polling? && AllStopped(c) && PollFits(c, observations) { PollingKeepsEntries(c, observations); }
    case Listed(stored) =>
      if c.pc.Listing? && AllStopped(c) && stored.Some? {
        NextOutputKeepsEntries(c.(records := stored.value), RunningEncodes(c, 0));
      }
    case Judged(reading) =>
      if AtOutput(c) { NextOutputKeepsEntries(AfterJudged(c, reading), c.pc.ids[1..]); }
    case Removed =>
      if c.pc.Removing? { NextOutputKeepsEntries(c, c.pc.ids); }
    case _ =>
  }
}
