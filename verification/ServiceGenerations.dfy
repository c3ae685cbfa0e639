/**
 The parent and its generations of service children (`runService` in src/index.ts) together
 with the lease registry, the process reports and the cleanup. A run is any sequence of
 events: whatever the children, the timers and the parent's deletions do, in any order.
 */
module ServiceGenerations {
  import opened Options
  import opened RecordedUse
  import opened ProcessReports
  import C = TerminationCleanup

  /** What the parent does about its child. */
  datatype Phase =
    | Restarting
    | Serving(child: Peer)
    | CleaningUp(ended: Peer)

  /** The reports of a child, and whether its channel is still read. */
  datatype Channel = Channel(log: seq<Report>, open: bool)

  /**
   `detached` are the children whose `close` made the parent stop listening; `skipped` are the ended
   children for which no cleanup could be obtained.
   */
  datatype System = System(
    removeInterruptedOutput: bool,
    uses: Uses,
    phase: Phase,
    children: nat,
    detached: set<Peer>,
    channels: map<Peer, Channel>,
    cleanups: map<Peer, C.Cleanup>,
    skipped: set<Peer>,
    nextToken: Token)

  function Initial(removeInterruptedOutput: bool): System {
    System(removeInterruptedOutput, NO_USES, Restarting, 0, {}, map[], map[], {}, 0)
  }

  /** The lifecycle events of a child; the parent restarts on the first two. */
  datatype Lifecycle = Exit | Error | Close | Disconnect

  datatype Event =
    | Spawned
    | LifecycleEvent(peer: Peer, kind: Lifecycle)
    | AcquireAsked(lease: Lease)
    | ReleaseAsked(peer: Peer, requestId: int)
    | DeletionAsked(recordedId: int)
    | DeletionReleased(token: Token)
    | Reported(peer: Peer, report: Report)
    | CleanupStep(peer: Peer, step: C.Event)
    | CleanupUnavailable

  /** Children are numbered; each process object is registered once. */
  function Child(n: nat): Peer {
    Peer(n, true)
  }

  /** The entries handed to the cleanup are those the process registry holds. */
  ghost predicate TakesReported(s: System, peer: Peer, step: C.Event) {
    step.Took? ==> peer in s.channels && Reflects(step.taken, s.channels[peer].log)
  }

  function Shut(channels: map<Peer, Channel>, peer: Peer): map<Peer, Channel> {
    if peer in channels then channels[peer := channels[peer].(open := false)] else channels
  }

  function OnLifecycle(s: System, peer: Peer, kind: Lifecycle): System {
    var told := s.(uses := Terminate(s.uses, peer),
                   detached := if kind.Close? then s.detached + {peer} else s.detached,
                   channels := if kind.Close? || kind.Disconnect? then Shut(s.channels, peer) else s.channels);
    if (kind.Exit? || kind.Error?) && s.phase == Serving(peer) && peer !in s.detached
    then told.(phase := CleaningUp(peer), cleanups := s.cleanups[peer := C.Start(s.removeInterruptedOutput)])
    else told
  }

  ghost function OnCleanup(s: System, peer: Peer, step: C.Event): System
    requires peer in s.cleanups
  {
    Settle(s, peer, step.Took?, C.Step(s.cleanups[peer], step))
  }

  /** The cleanup of `peer` moved on; if it ended, the leases go and a new child may come. */
  function Settle(s: System, peer: Peer, took: bool, next: C.Cleanup): System
    requires peer in s.cleanups
  {
    var moved := s.(cleanups := s.cleanups[peer := next],
                    channels := if took then Shut(s.channels, peer) else s.channels);
    if next.releases > s.cleanups[peer].releases
    then moved.(uses := ReleasePeer(s.uses, peer), phase := if s.phase == CleaningUp(peer) then Restarting else s.phase)
    else moved
  }

  /** One step; an event that cannot happen in the state changes nothing. */
  ghost function Step(s: System, e: Event): System {
    match e
    case Spawned =>
      var child := Child(s.children);
      if s.phase.Restarting?
      then s.(uses := Register(s.uses, child), phase := Serving(child), children := s.children + 1,
              channels := s.channels[child := Channel([], true)])
      else s
    case LifecycleEvent(peer, kind) => OnLifecycle(s, peer, kind)
    case AcquireAsked(lease) => s.(uses := Acquire(s.uses, lease))
    case ReleaseAsked(peer, requestId) => s.(uses := Release(s.uses, peer, requestId))
    case DeletionAsked(recordedId) =>
      if DeletionStatusOf(s.uses, recordedId, s.nextToken).Deletion?
      then s.(uses := TryDelete(s.uses, recordedId, s.nextToken), nextToken := s.nextToken + 1)
      else s
    case DeletionReleased(token) => s.(uses := ReleaseDeletion(s.uses, token))
    case Reported(peer, report) =>
      if peer in s.channels && s.channels[peer].open
      then s.(channels := s.channels[peer := s.channels[peer].(log := s.channels[peer].log + [report])])
      else s
    case CleanupStep(peer, step) =>
      if peer in s.cleanups && peer !in s.skipped && TakesReported(s, peer, step) then OnCleanup(s, peer, step) else s
    case CleanupUnavailable =>
      if s.phase.CleaningUp? && s.phase.ended in s.cleanups
         && s.cleanups[s.phase.ended] == C.Start(s.removeInterruptedOutput)
      then s.(phase := Restarting, skipped := s.skipped + {s.phase.ended})
      else s
  }

  ghost function Run(removeInterruptedOutput: bool, events: seq<Event>): System {
    if events == [] then Initial(removeInterruptedOutput)
    else Step(Run(removeInterruptedOutput, events[..|events| - 1]), events[|events| - 1])
  }

  /** Only the child being served can be current, and it still has its terminal listener. */
  ghost predicate CurrentIsServed(s: System) {
    && (s.uses.current.Some? ==> s.phase == Serving(s.uses.current.value) && s.uses.current.value in s.uses.listening)
    && (forall p :: p in s.uses.watched ==> p.id < s.children)
    && (s.phase.Serving? ==> s.phase.child.id < s.children && s.phase.child !in s.cleanups)
  }

  /** A lease belongs to the child being served or cleaned up, or its cleanup was skipped. */
  ghost predicate LeasesBelong(s: System) {
    forall l :: l in s.uses.leases ==>
      s.phase == Serving(l.senderPeer) || s.phase == CleaningUp(l.senderPeer) || l.senderPeer in s.skipped
  }

  ghost predicate CleanupsOk(s: System) {
    && s.skipped <= s.cleanups.Keys
    && (forall p :: p in s.cleanups ==> p.id < s.children && C.Valid(s.cleanups[p]))
    && (forall p :: p in s.cleanups && p !in s.skipped && !s.cleanups[p].cancelled ==> s.phase == CleaningUp(p))
    && (s.phase.CleaningUp? ==> s.phase.ended in s.cleanups && s.phase.ended !in s.skipped
                                && !s.cleanups[s.phase.ended].cancelled)
  }

  /** Once a cleanup has its processes, they are the ones its child last reported to run. */
  ghost predicate Covered(c: C.Cleanup, channels: map<Peer, Channel>, peer: Peer) {
    c.pc.Taking? || c.pc.Broken?
    || (peer in channels && !channels[peer].open && Reflects(c.entries, channels[peer].log))
  }

  ghost predicate CleanupsCover(s: System) {
    forall p :: p in s.cleanups ==> Covered(s.cleanups[p], s.channels, p)
  }

  ghost predicate Valid(s: System) {
    CurrentIsServed(s) && LeasesBelong(s) && CleanupsOk(s) && CleanupsCover(s)
  }

  /** Nothing but the leases and the holders' side changes for the four requests of children and parent. */
  lemma UsesStepKeeps(s: System, e: Event)
    requires Valid(s)
    requires e.AcquireAsked? || e.ReleaseAsked? || e.DeletionAsked? || e.DeletionReleased?
    ensures Valid(Step(s, e))
  {
  }

  lemma SpawnKeeps(s: System)
    requires Valid(s)
    ensures Valid(Step(s, Spawned))
  {
  }

  /** Channels are only ever shut and keep what was reported. */
  ghost predicate OnlyShut(before: map<Peer, Channel>, after: map<Peer, Channel>) {
    forall p :: p in before ==> p in after && after[p].log == before[p].log && (after[p].open ==> before[p].open)
  }

  lemma LifecycleKeepsUses(s: System, peer: Peer, kind: Lifecycle)
    requires CurrentIsServed(s) && LeasesBelong(s)
    ensures CurrentIsServed(OnLifecycle(s, peer, kind)) && LeasesBelong(OnLifecycle(s, peer, kind))
  {
  }

  lemma LifecycleKeepsCleanups(s: System, peer: Peer, kind: Lifecycle)
    requires CurrentIsServed(s) && CleanupsOk(s) && CleanupsCover(s)
    ensures CleanupsOk(OnLifecycle(s, peer, kind)) && CleanupsCover(OnLifecycle(s, peer, kind))
  {
    assert C.Valid(C.Start(s.removeInterruptedOutput));
    var t := OnLifecycle(s, peer, kind);
    assert OnlyShut(s.channels, t.channels);
    forall p | p in s.cleanups ensures Covered(s.cleanups[p], t.channels, p) {
      CoveredWhenShut(s.cleanups[p], s.channels, t.channels, p);
    }
  }

  lemma SettleKeepsUses(s: System, peer: Peer, took: bool, next: C.Cleanup)
    requires Valid(s) && peer in s.cleanups && peer !in s.skipped
    ensures CurrentIsServed(Settle(s, peer, took, next)) && LeasesBelong(Settle(s, peer, took, next))
  {
  }

  lemma SettleKeepsCleanups(s: System, peer: Peer, took: bool, next: C.Cleanup)
    requires CleanupsOk(s) && peer in s.cleanups && peer !in s.skipped && C.Valid(next)
    requires s.cleanups[peer].cancelled ==> next.cancelled
    requires next.cancelled && !s.cleanups[peer].cancelled <==> next.releases > s.cleanups[peer].releases
    ensures CleanupsOk(Settle(s, peer, took, next))
  {
  }

  lemma CoveredWhenShut(c: C.Cleanup, before: map<Peer, Channel>, after: map<Peer, Channel>, peer: Peer)
    requires Covered(c, before, peer) && OnlyShut(before, after)
    ensures Covered(c, after, peer)
  {
  }

  lemma SettleKeepsCover(s: System, peer: Peer, took: bool, next: C.Cleanup)
    requires CleanupsCover(s) && peer in s.cleanups
    requires Covered(next, Settle(s, peer, took, next).channels, peer)
    ensures CleanupsCover(Settle(s, peer, took, next))
  {
    var t := Settle(s, peer, took, next);
    assert OnlyShut(s.channels, t.channels);
    forall p | p in t.cleanups ensures Covered(t.cleanups[p], t.channels, p) {
      if p != peer { CoveredWhenShut(s.cleanups[p], s.channels, t.channels, p); }
    }
  }

  lemma TakingCovers(s: System, peer: Peer, step: C.Event)
    requires CleanupsCover(s) && peer in s.cleanups && TakesReported(s, peer, step)
    ensures Covered(C.Step(s.cleanups[peer], step), OnCleanup(s, peer, step).channels, peer)
  {
    var c := s.cleanups[peer];
    C.EntriesAreTakenOnce(c, step);
    if !c.pc.Taking? && !c.pc.Broken? {
      CoveredWhenShut(c, s.channels, OnCleanup(s, peer, step).channels, peer);
    }
  }

  lemma CleanupStepKeeps(s: System, peer: Peer, step: C.Event)
    requires Valid(s) && peer in s.cleanups && peer !in s.skipped && TakesReported(s, peer, step)
    ensures Valid(OnCleanup(s, peer, step))
  {
    var c := s.cleanups[peer];
    C.StepKeeps(c, step);
    C.CancelledStays(c, step);
    C.EntriesAreTakenOnce(c, step);
    SettleKeepsUses(s, peer, step.Took?, C.Step(c, step));
    SettleKeepsCleanups(s, peer, step.Took?, C.Step(c, step));
    TakingCovers(s, peer, step);
    SettleKeepsCover(s, peer, step.Took?, C.Step(c, step));
  }

  lemma StepKeeps(s: System, e: Event)
    requires Valid(s)
    ensures Valid(Step(s, e))
  {
    match e
    case Spawned => SpawnKeeps(s);
    case LifecycleEvent(peer, kind) =>
      LifecycleKeepsUses(s, peer, kind);
      LifecycleKeepsCleanups(s, peer, kind);
    case Reported(peer, report) =>
    case CleanupStep(peer, step) =>
      if peer in s.cleanups && peer !in s.skipped && TakesReported(s, peer, step) {
        CleanupStepKeeps(s, peer, step);
      }
    case CleanupUnavailable =>
    case _ => UsesStepKeeps(s, e);
  }

  lemma {:induction false} RunKeeps(removeInterruptedOutput: bool, events: seq<Event>)
    ensures Valid(Run(removeInterruptedOutput, events))
  {
    if events != [] {
      RunKeeps(removeInterruptedOutput, events[..|events| - 1]);
      StepKeeps(Run(removeInterruptedOutput, events[..|events| - 1]), events[|events| - 1]);
    }
  }

  // How one child follows another

  /** The end of a cleanup: its outcome is settled and it is let go. */
  ghost predicate EndsCleanup(s: System, e: Event, peer: Peer) {
    e == CleanupStep(peer, C.Finished) && peer in s.cleanups && !s.cleanups[peer].race.Undecided?
  }

  /**
   A child is served until it exits or fails, unless its channel was closed before; then it is cleaned up
   after until the cleanup ends, or cannot be had; only then does the next child come.
   */
  lemma PhaseMoves(s: System, e: Event)
    requires Valid(s)
    ensures Step(s, e).phase ==
      match s.phase
      case Restarting => if e.Spawned? then Serving(Child(s.children)) else Restarting
      case Serving(child) =>
        if (e == LifecycleEvent(child, Exit) || e == LifecycleEvent(child, Error)) && child !in s.detached
        then CleaningUp(child) else s.phase
      case CleaningUp(ended) =>
        if EndsCleanup(s, e, ended) || (e.CleanupUnavailable? && s.cleanups[ended] == C.Start(s.removeInterruptedOutput))
        then Restarting else s.phase
  {
    if e.CleanupStep? {
      if e.peer in s.cleanups && e.peer !in s.skipped && TakesReported(s, e.peer, e.step) { CleanupMoves(s, e.peer, e.step); }
    }
  }

  lemma CleanupMoves(s: System, peer: Peer, step: C.Event)
    requires CleanupsOk(s) && peer in s.cleanups && peer !in s.skipped
    ensures OnCleanup(s, peer, step).phase
         == if s.phase == CleaningUp(peer) && step.Finished? && !s.cleanups[peer].race.Undecided? then Restarting else s.phase
  {
    C.CancelledStays(s.cleanups[peer], step);
  }

  /** What stops the reports of a child: its channel closing, or the cleanup taking its processes. */
  ghost predicate StopsReports(s: System, e: Event, peer: Peer) {
    || e == LifecycleEvent(peer, Close) || e == LifecycleEvent(peer, Disconnect)
    || (e.CleanupStep? && e.peer == peer && e.step.Took? && peer in s.cleanups && peer !in s.skipped && TakesReported(s, peer, e.step))
  }

  /** Reports are kept in the order they come in, until they stop; ending alone does not stop them. */
  lemma ChannelMoves(s: System, e: Event, peer: Peer)
    requires peer in s.channels && peer.id < s.children
    ensures var t := Step(s, e);
      && (peer in t.detached <==> peer in s.detached || e == LifecycleEvent(peer, Close))
      && peer in t.channels && (t.channels[peer].open <==> s.channels[peer].open && !StopsReports(s, e, peer))
      && t.channels[peer].log == if e.Reported? && e.peer == peer && s.channels[peer].open then s.channels[peer].log + [e.report]
                                 else s.channels[peer].log
  {
    if e.CleanupStep? && e.peer in s.cleanups && e.peer !in s.skipped && TakesReported(s, e.peer, e.step) {
      SettleChannels(s, e.peer, e.step.Took?, C.Step(s.cleanups[e.peer], e.step), peer);
    }
  }

  lemma SettleChannels(s: System, of: Peer, took: bool, next: C.Cleanup, peer: Peer)
    requires of in s.cleanups && peer in s.channels
    ensures var t := Settle(s, of, took, next);
      && t.detached == s.detached && peer in t.channels && t.channels[peer].log == s.channels[peer].log
      && (t.channels[peer].open <==> s.channels[peer].open && !(took && peer == of))
  {
  }

  /** Whatever the cleanup is doing, once the cap has passed it ends: its child's leases go, and the next child is served. */
  lemma CapBringsNextChild(s: System, peer: Peer)
    requires Valid(s) && s.phase == CleaningUp(peer)
    ensures var capped := Step(s, CleanupStep(peer, C.CapFired));
      var over := Step(capped, CleanupStep(peer, C.Finished));
      && capped.phase == s.phase && over.phase == Restarting && Step(over, Spawned).phase == Serving(Child(s.children))
      && forall l :: l in over.uses.leases ==> l.senderPeer != peer
  {
    var capped := Step(s, CleanupStep(peer, C.CapFired));
    StepKeeps(s, CleanupStep(peer, C.CapFired));
    CapShows(s, peer);
    FinishedReleases(capped, peer);
    ReleasePeerExactly(capped.uses, peer);
  }

  lemma CapShows(s: System, peer: Peer)
    requires Valid(s) && s.phase == CleaningUp(peer)
    ensures var capped := Step(s, CleanupStep(peer, C.CapFired));
      capped.phase == s.phase && capped.children == s.children && peer in capped.cleanups && !capped.cleanups[peer].race.Undecided?
  {
    CleanupMoves(s, peer, C.CapFired);
  }

  lemma FinishedReleases(s: System, peer: Peer)
    requires Valid(s) && s.phase == CleaningUp(peer) && !s.cleanups[peer].race.Undecided?
    ensures var over := Step(s, CleanupStep(peer, C.Finished));
      over.phase == Restarting && over.children == s.children && over.uses == ReleasePeer(s.uses, peer)
  {
  }

  /** The cleanup may give up the leases: every process was seen gone, or it failed, or the cap passed. */
  ghost predicate MayRelease(s: System, peer: Peer) {
    peer in s.cleanups &&
    var c := s.cleanups[peer];
    c.race.Cap? || c.race.Failed? || (c.race.Done? && C.AllSeenGone(c) && peer in s.channels
                                      && Reflects(c.entries, s.channels[peer].log))
  }

  /** The step ends the lease: by its own message, or by the cleanup of its ended child. */
  ghost predicate Ends(s: System, e: Event, l: Lease) {
    || e == ReleaseAsked(l.senderPeer, l.requestId)
    || (e == CleanupStep(l.senderPeer, C.Finished) && s.phase == CleaningUp(l.senderPeer) && MayRelease(s, l.senderPeer))
  }

  lemma LeaseLeaves(s: System, e: Event, l: Lease)
    requires Valid(s) && l in s.uses.leases && l !in Step(s, e).uses.leases
    ensures Ends(s, e, l)
  {
    match e
    case ReleaseAsked(peer, requestId) => ReleaseExactly(s.uses, peer, requestId);
    case CleanupStep(peer, step) => LeaseCleanedUp(s, peer, step, l);
    case _ => StepIsOperation(s, e);
  }

  lemma LeaseCleanedUp(s: System, peer: Peer, step: C.Event, l: Lease)
    requires CleanupsOk(s) && CleanupsCover(s) && peer in s.cleanups && peer !in s.skipped
    requires l in s.uses.leases && l !in OnCleanup(s, peer, step).uses.leases
    ensures peer == l.senderPeer && step.Finished? && s.phase == CleaningUp(peer) && MayRelease(s, peer)
  {
    C.CancelledStays(s.cleanups[peer], step);
    assert Covered(s.cleanups[peer], s.channels, peer);
  }

  ghost function At(removeInterruptedOutput: bool, events: seq<Event>, i: nat): System
    requires i <= |events|
  {
    Run(removeInterruptedOutput, events[..i])
  }

  lemma AtStep(removeInterruptedOutput: bool, events: seq<Event>, i: nat)
    requires i < |events|
    ensures At(removeInterruptedOutput, events, i + 1) == Step(At(removeInterruptedOutput, events, i), events[i])
    ensures Valid(At(removeInterruptedOutput, events, i))
  {
    assert events[..i + 1][..i] == events[..i];
    RunKeeps(removeInterruptedOutput, events[..i]);
  }

  /** A lease that is gone was ended by some step in between. */
  lemma {:induction false} LeaseEndsBetween(remove: bool, events: seq<Event>, i: nat, j: nat, l: Lease)
    requires i <= j <= |events|
    requires l in At(remove, events, i).uses.leases && l !in At(remove, events, j).uses.leases
    ensures exists k :: i <= k < j && Ends(At(remove, events, k), events[k], l)
    decreases j - i
  {
    AtStep(remove, events, i);
    if l in At(remove, events, i + 1).uses.leases {
      LeaseEndsBetween(remove, events, i + 1, j, l);
    } else {
      LeaseLeaves(At(remove, events, i), events[i], l);
    }
  }

  /**
   In every run: a deletion token granted for a recording that was leased earlier comes after
   the end of that lease, by its own message or by its ended child's cleanup after all of the
   child's processes were seen gone, the cleanup failed, or the cap passed.
   */
  lemma DeletionWaitsForLeases(remove: bool, events: seq<Event>, i: nat, j: nat, l: Lease)
    requires i <= j < |events| && l in At(remove, events, i).uses.leases
    requires events[j] == DeletionAsked(l.recordedId)
    requires var s := At(remove, events, j); DeletionStatusOf(s.uses, l.recordedId, s.nextToken).Deletion?
    ensures exists k :: i <= k < j && Ends(At(remove, events, k), events[k], l)
  {
    var s := At(remove, events, j);
    assert l in s.uses.leases ==> l in HeldOn(s.uses, l.recordedId);
    LeaseEndsBetween(remove, events, i, j, l);
  }

  /** Tokens are only granted while a child is being served. */
  lemma DeletionNeedsServedChild(remove: bool, events: seq<Event>, recordedId: int)
    requires var s := Run(remove, events); DeletionStatusOf(s.uses, recordedId, s.nextToken).Deletion?
    ensures Run(remove, events).phase.Serving?
  {
    RunKeeps(remove, events);
  }

  /** When a new child is about to be registered, the only leases left are those of skipped cleanups. */
  lemma NewChildFindsNoLease(remove: bool, events: seq<Event>)
    requires Run(remove, events).phase.Restarting?
    ensures forall l :: l in Run(remove, events).uses.leases ==> l.senderPeer in Run(remove, events).skipped
    ensures (forall e :: e in events ==> e != CleanupUnavailable) ==> Run(remove, events).uses.leases == {}
  {
    RunKeeps(remove, events);
    if forall e :: e in events ==> e != CleanupUnavailable { NothingSkipped(remove, events); }
  }

  lemma {:induction false} NothingSkipped(remove: bool, events: seq<Event>)
    requires forall e :: e in events ==> e != CleanupUnavailable
    ensures Run(remove, events).skipped == {}
  {
    if events != [] {
      var before := events[..|events| - 1];
      assert forall e :: e in before ==> e in events;
      NothingSkipped(remove, before);
      assert events[|events| - 1] in events;
    }
  }

  // Exactly which leases outlive their child

  /** The cleanup of the child that just ended could not be obtained, and the parent goes on without it. */
  ghost predicate Skips(s: System, e: Event) {
    && e.CleanupUnavailable? && s.phase.CleaningUp? && s.phase.ended in s.cleanups
    && s.cleanups[s.phase.ended] == C.Start(s.removeInterruptedOutput)
  }

  /** The lease was there when the cleanup of its child was skipped, and is not released afterwards. */
  ghost predicate Outlives(remove: bool, events: seq<Event>, i: nat, l: Lease)
    requires i < |events|
  {
    var s := At(remove, events, i);
    && Skips(s, events[i]) && l in s.uses.leases && s.phase.ended == l.senderPeer
    && NotReleased(events, i + 1, l)
  }

  ghost predicate NotReleased(events: seq<Event>, from: nat, l: Lease) {
    forall k :: from <= k < |events| ==> events[k] != ReleaseAsked(l.senderPeer, l.requestId)
  }

  lemma SkippedGrows(s: System, e: Event)
    ensures Step(s, e).skipped == if Skips(s, e) then s.skipped + {s.phase.ended} else s.skipped
  {
  }

  /** A child whose cleanup was skipped never gets another lease. */
  lemma SkippedGetsNoLease(s: System, e: Event, l: Lease)
    requires Valid(s) && l.senderPeer in s.skipped && l in Step(s, e).uses.leases
    ensures l in s.uses.leases
    ensures IsSafeId(l.requestId) ==> e != ReleaseAsked(l.senderPeer, l.requestId)
  {
    NewLease(s, e, l);
    if e == ReleaseAsked(l.senderPeer, l.requestId) && IsSafeId(l.requestId) { ReleaseExactly(s.uses, l.senderPeer, l.requestId); }
  }

  /** A lease is new only if it was asked for by the child that is served. */
  lemma NewLease(s: System, e: Event, l: Lease)
    requires l in Step(s, e).uses.leases
    ensures l in s.uses.leases || (e == AcquireAsked(l) && ProperRequest(s.uses, l))
  {
    StepIsOperation(s, e);
    if e.AcquireAsked? { AcquireExactly(s.uses, e.lease); }
  }

  lemma {:induction false} LeasesAreSafe(remove: bool, events: seq<Event>)
    ensures forall l :: l in Run(remove, events).uses.leases ==> IsSafeId(l.requestId)
  {
    if events != [] {
      LeasesAreSafe(remove, events[..|events| - 1]);
      var before, e := Run(remove, events[..|events| - 1]), events[|events| - 1];
      forall l | l in Step(before, e).uses.leases ensures IsSafeId(l.requestId) { NewLease(before, e, l); }
    }
  }

  /** Going back from the end, a lease of a skipped child was there since the skip, never released. */
  lemma {:induction false} SkippedLeaseGoesBack(remove: bool, events: seq<Event>, i: nat, l: Lease)
    requires i <= |events| && l.senderPeer in At(remove, events, i).skipped
    requires l in At(remove, events, |events|).uses.leases && IsSafeId(l.requestId)
    ensures l in At(remove, events, i).uses.leases && NotReleased(events, i, l)
    decreases |events| - i
  {
    if i < |events| {
      AtStep(remove, events, i);
      SkippedGrows(At(remove, events, i), events[i]);
      SkippedLeaseGoesBack(remove, events, i + 1, l);
      SkippedGetsNoLease(At(remove, events, i), events[i], l);
    }
  }

  lemma SkipKeepsUses(s: System, e: Event)
    ensures Skips(s, e) ==> Step(s, e).uses == s.uses
  {
  }

  lemma NoneAtFirst(remove: bool, events: seq<Event>)
    ensures At(remove, events, 0).skipped == {}
  {
    assert events[..0] == [];
  }

  /** A child is among the skipped ones because of some skip. */
  lemma {:induction false} SkippedAtSome(remove: bool, events: seq<Event>, n: nat, peer: Peer) returns (i: nat)
    requires n <= |events| && peer in At(remove, events, n).skipped
    ensures i < n && Skips(At(remove, events, i), events[i]) && At(remove, events, i).phase.ended == peer
    ensures peer in At(remove, events, i + 1).skipped && At(remove, events, i + 1).uses == At(remove, events, i).uses
  {
    NoneAtFirst(remove, events);
    if peer in At(remove, events, n - 1).skipped {
      i := SkippedAtSome(remove, events, n - 1, peer);
    } else {
      i := n - 1;
      AtStep(remove, events, i);
      SkippedNow(At(remove, events, i), events[i], peer);
    }
  }

  lemma SkippedNow(s: System, e: Event, peer: Peer)
    requires peer !in s.skipped && peer in Step(s, e).skipped
    ensures Skips(s, e) && s.phase.ended == peer && Step(s, e).uses == s.uses
  {
    SkippedGrows(s, e);
    SkipKeepsUses(s, e);
  }

  lemma {:induction false} SkippedStays(remove: bool, events: seq<Event>, i: nat, j: nat, peer: Peer)
    requires i <= j <= |events| && peer in At(remove, events, i).skipped
    ensures peer in At(remove, events, j).skipped
    decreases j - i
  {
    if i < j {
      AtStep(remove, events, i);
      SkippedGrows(At(remove, events, i), events[i]);
      SkippedStays(remove, events, i + 1, j, peer);
    }
  }

  /** Nothing else ends a lease of a skipped child. */
  lemma OutlivingStays(remove: bool, events: seq<Event>, i: nat, l: Lease)
    requires i < |events| && Outlives(remove, events, i, l)
    ensures l in Run(remove, events).uses.leases
  {
    AtStep(remove, events, i);
    assert events[..|events|] == events;
    if l !in At(remove, events, |events|).uses.leases {
      LeaseEndsBetween(remove, events, i + 1, |events|, l);
      var k :| i + 1 <= k < |events| && Ends(At(remove, events, k), events[k], l);
      SkippedStays(remove, events, i + 1, k, l.senderPeer);
      AtStep(remove, events, k);
    }
  }

  /**
   When a new child is about to be registered, a lease of an earlier one remains exactly if the cleanup
   of its ended child was skipped while the lease was there, and no message released it since.
   */
  lemma LeaseRemainsExactly(remove: bool, events: seq<Event>, l: Lease)
    requires Run(remove, events).phase.Restarting?
    ensures l in Run(remove, events).uses.leases <==> exists i :: 0 <= i < |events| && Outlives(remove, events, i, l)
  {
    if l in Run(remove, events).uses.leases { var i := RemainingOutlives(remove, events, l); }
    if i :| 0 <= i < |events| && Outlives(remove, events, i, l) { OutlivingStays(remove, events, i, l); }
  }

  lemma RemainingOutlives(remove: bool, events: seq<Event>, l: Lease) returns (i: nat)
    requires Run(remove, events).phase.Restarting? && l in Run(remove, events).uses.leases
    ensures i < |events| && Outlives(remove, events, i, l)
  {
    assert events[..|events|] == events;
    NewChildFindsNoLease(remove, events);
    LeasesAreSafe(remove, events);
    i := SkippedAtSome(remove, events, |events|, l.senderPeer);
    SkippedLeaseGoesBack(remove, events, i + 1, l);
  }

  /** The registry operation that a step amounts to. */
  ghost function OperationOf(s: System, e: Event): Option<Operation> {
    match e
    case Spawned => if s.phase.Restarting? then Some(OpRegister(Child(s.children))) else None
    case LifecycleEvent(peer, _) => Some(OpTerminate(peer))
    case AcquireAsked(lease) => Some(OpAcquire(lease))
    case ReleaseAsked(peer, requestId) => Some(OpRelease(peer, requestId))
    case DeletionAsked(recordedId) => Some(OpTryDelete(recordedId))
    case DeletionReleased(token) => Some(OpReleaseDeletion(token))
    case CleanupStep(peer, _) => if Step(s, e).uses == s.uses then None else Some(OpReleasePeer(peer))
    case _ => None
  }

  lemma StepIsOperation(s: System, e: Event)
    ensures Step(s, e).uses == if OperationOf(s, e).None? then s.uses else Apply(s.uses, OperationOf(s, e).value, s.nextToken)
    ensures Step(s, e).nextToken == s.nextToken || Step(s, e).nextToken == s.nextToken + 1
    ensures forall t :: t in Step(s, e).uses.issued ==> t in s.uses.issued || t < Step(s, e).nextToken
  {
  }

  ghost predicate ExclusiveAndMinted(s: System) {
    Exclusive(s.uses) && forall t :: t in s.uses.issued ==> t < s.nextToken
  }

  lemma StepKeepsExclusive(s: System, e: Event, t: System)
    requires ExclusiveAndMinted(s) && t == Step(s, e)
    ensures ExclusiveAndMinted(t)
  {
    StepIsOperation(s, e);
    if OperationOf(s, e).Some? { ApplyKeepsExclusive(s.uses, OperationOf(s, e).value, s.nextToken); }
  }

  /** In every run no recording is leased and being deleted at the same time. */
  lemma {:induction false} RunKeepsExclusive(remove: bool, events: seq<Event>)
    ensures ExclusiveAndMinted(Run(remove, events))
  {
    if events != [] {
      var before := Run(remove, events[..|events| - 1]);
      RunKeepsExclusive(remove, events[..|events| - 1]);
      StepKeepsExclusive(before, events[|events| - 1], Run(remove, events));
    }
  }

  lemma RunOn(remove: bool, events: seq<Event>, e: Event)
    ensures Run(remove, events + [e]) == Step(Run(remove, events), e)
  {
    assert (events + [e])[..|events|] == events;
  }

  /** A child takes a lease and exits. */
  lemma LeaseTakenAndChildGone(remove: bool, l: Lease)
    requires l == Lease(Encoding, 7, 1, Child(0))
    ensures var s := Run(remove, [Spawned] + [AcquireAsked(l)] + [LifecycleEvent(Child(0), Exit)]);
      && s.phase == CleaningUp(Child(0)) && s.uses.leases == {l} && s.uses.unknown == {l} && s.children == 1
      && s.cleanups == map[Child(0) := C.Start(remove)] && s.removeInterruptedOutput == remove
      && s.uses.watched == {Child(0)}
  {
    RunOn(remove, [], Spawned);
    assert [] + [Spawned] == [Spawned];
    var s1 := Run(remove, [Spawned]);
    assert s1.uses.leases == {} && s1.uses.tokens == map[] && s1.uses.current == Some(Child(0));
    RunOn(remove, [Spawned], AcquireAsked(l));
    var s2 := Run(remove, [Spawned] + [AcquireAsked(l)]);
    assert AcquireStatusOf(s1.uses, l) == Granted;
    assert s2.uses.leases == {l};
    RunOn(remove, [Spawned] + [AcquireAsked(l)], LifecycleEvent(Child(0), Exit));
    assert HeldBy(s2.uses, Child(0)) == {l};
  }

  /**
   If the cleanup cannot be obtained the parent restarts without releasing: the lease of the ended
   child outlives it, and the recording can never be deleted while the lease is not released.
   */
  lemma SkippedCleanupLeavesLease(remove: bool, l: Lease)
    requires l == Lease(Encoding, 7, 1, Child(0))
    ensures var s := Run(remove, [Spawned] + [AcquireAsked(l)] + [LifecycleEvent(Child(0), Exit)] + [CleanupUnavailable] + [Spawned]);
      s.phase == Serving(Child(1)) && l in s.uses.leases && DeletionStatusOf(s.uses, 7, s.nextToken) == Unknown
  {
    LeaseTakenAndChildGone(remove, l);
    var events := [Spawned] + [AcquireAsked(l)] + [LifecycleEvent(Child(0), Exit)];
    RunOn(remove, events, CleanupUnavailable);
    RunOn(remove, events + [CleanupUnavailable], Spawned);
    SkipThenSpawn(Run(remove, events));
    UnreleasedBlocks(Run(remove, events + [CleanupUnavailable] + [Spawned]).uses, l);
  }

  lemma SkipThenSpawn(s: System)
    requires Skips(s, CleanupUnavailable)
    ensures var t := Step(Step(s, CleanupUnavailable), Spawned);
      t.phase == Serving(Child(s.children)) && t.uses.leases == s.uses.leases && t.uses.unknown == s.uses.unknown
  {
  }

  lemma UnreleasedBlocks(u: Uses, l: Lease)
    requires l in u.leases && l in u.unknown
    ensures forall t :: DeletionStatusOf(u, l.recordedId, t) == Unknown
  {
    assert l in HeldOn(u, l.recordedId) * u.unknown;
  }
}
