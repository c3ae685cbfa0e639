/**
 The priority lock of src/model/ExecutionManagementModel.ts: requests wait without an id,
 then with an id, then hold the lock. Every operation is proved to be one operation of the
 stable queue in `StableLock`, whatever the number of ids is.
 */
module ExecutionManagement {
  import opened Options
  import opened PriorityOrder
  import L = StableLock

  datatype Phase = Allocating | Waiting | Granted | Overdue | Expired | Released

  /** One call of a request's `resolve` or `reject`. */
  datatype Settlement = Resolved(id: nat) | Rejected

  /** All that a request's promise has been told in each phase: nothing, or one settlement. */
  function Told(phase: Phase, id: Option<nat>): (told: seq<Settlement>)
    ensures |told| <= 1
  {
    match phase
    case Allocating => []
    case Waiting => []
    case Expired => [Rejected]
    case _ => if id.Some? then [Resolved(id.value)] else []
  }

  /** One call of `getExecution`. `serial` stands for the identity of the object. */
  class Entry {
    const serial: nat
    const priority: int
    var id: Option<nat>
    var phase: Phase
    var timerArmed: bool
    var ownerTimerArmed: bool
    var settlements: seq<Settlement>

    constructor (serial: nat, priority: int)
      ensures this.serial == serial && this.priority == priority
      ensures id == None && phase == Allocating && settlements == []
      ensures timerArmed && !ownerTimerArmed
    {
      this.serial := serial;
      this.priority := priority;
      id, phase, timerArmed, ownerTimerArmed, settlements := None, Allocating, true, false, [];
    }

    ghost function Key(): Request {
      Request(serial, priority)
    }

    predicate HoldsId()
      reads this
    {
      phase.Waiting? || phase.Granted? || phase.Overdue?
    }
  }

  ghost function Keys(q: seq<Entry>): (keys: seq<Request>)
    ensures |keys| == |q|
    ensures forall i :: 0 <= i < |q| ==> keys[i] == q[i].Key()
  {
    seq(|q|, i requires 0 <= i < |q| => q[i].Key())
  }

  /** The id tried after `id`. */
  function NextId(id: nat, max: nat): nat {
    if id == max then 1 else id + 1
  }

  /** The id tried at the given attempt when the first one tried is `start`. */
  function Tried(start: nat, max: nat, attempt: nat): nat {
    if attempt == 0 then start else NextId(Tried(start, max, attempt - 1), max)
  }

  /** Going round the ids closes after exactly `max` attempts and meets each id once. */
  lemma {:induction false} TriedClosed(start: nat, max: nat, attempt: nat)
    requires 1 <= start <= max && attempt <= max
    ensures Tried(start, max, attempt) == if start + attempt <= max then start + attempt else start + attempt - max
  {
    if attempt > 0 { TriedClosed(start, max, attempt - 1); }
  }

  lemma TriedCoversAll(start: nat, max: nat, id: nat)
    requires 1 <= start <= max && 1 <= id <= max
    ensures exists attempt: nat :: attempt < max && Tried(start, max, attempt) == id
  {
    var attempt := if start <= id then id - start else id + max - start;
    TriedClosed(start, max, attempt);
  }

  class ExecutionManagementModel {
    const maxExecutionId: nat
    const reservationOwnerWatchdog: bool
    var lockId: Option<nat>
    var owner: Entry?
    var nextExecutionId: nat
    var exeQueue: seq<Entry>
    var allocationQueue: seq<Entry>
    var listeners: set<Entry>
    var requests: seq<Entry>
    ghost var entries: set<Entry>
    ghost var granted: seq<nat>
    ghost var expired: set<nat>
    ghost var waiterOf: map<nat, Entry>

    ghost predicate Known(e: Entry)
      reads this`requests
    {
      e.serial < |requests| && requests[e.serial] == e
    }

    /** What a request's fields say in each phase, and what they have told the caller. */
    ghost predicate Consistent(e: Entry)
      reads this`owner, e
    {
      && e.timerArmed == (e.phase.Allocating? || e.phase.Waiting?)
      && e.ownerTimerArmed == (e.phase.Granted? && reservationOwnerWatchdog)
      && (e.phase.Granted? || e.phase.Overdue? ==> e == owner)
      && e.settlements == Told(e.phase, e.id)
      && (e.phase.Granted? || e.phase.Overdue? || e.phase.Released? ==> e.id.Some? && 1 <= e.id.value <= maxExecutionId)
    }

    ghost predicate OrderedQueues()
      reads this`exeQueue, this`allocationQueue
    {
      && Sorted(Keys(exeQueue)) && Sorted(Keys(allocationQueue))
      && TiesFavour(Keys(exeQueue), Keys(allocationQueue))
    }

    /** An entry that may stand in `exeQueue`. */
    ghost predicate Waits(e: Entry)
      reads this`requests, this`lockId, this`waiterOf, this`listeners, e
    {
      && Known(e) && e.phase.Waiting? && e in listeners
      && e.id.Some? && 1 <= e.id.value <= maxExecutionId && e.id != lockId
      && e.id.value in waiterOf && waiterOf[e.id.value] == e
    }

    ghost predicate OwnerOk()
      reads this`requests, this`lockId, this`owner, owner
    {
      if owner == null then lockId.None?
      else Known(owner) && lockId.Some? && owner.id == lockId && 1 <= lockId.value <= maxExecutionId
           && (owner.phase.Granted? || owner.phase.Overdue?)
    }

    /** Holds at every point of every operation; `loose` are the requests being moved. */
    ghost predicate Coherent(loose: set<Entry>)
      reads this, requests, exeQueue, allocationQueue, owner
    {
      && 1 <= nextExecutionId <= maxExecutionId
      && (forall i :: 0 <= i < |requests| ==> requests[i].serial == i && requests[i] in entries)
      && (forall e :: e in exeQueue ==> Waits(e) && e !in loose)
      && (forall e :: e in allocationQueue ==> Known(e) && e.phase.Allocating? && e.id.None? && e !in loose)
      && OwnerOk()
      && (forall i :: 0 <= i < |requests| && requests[i] !in loose ==> Consistent(requests[i]))
      && (forall e :: e in listeners ==> e in exeQueue || e in loose)
    }

    /** The id is the owner's or a waiter's. */
    ghost predicate Used(id: nat)
      reads this`lockId, this`exeQueue, exeQueue
    {
      lockId == Some(id) || exists e :: e in exeQueue && e.id == Some(id) && e.HoldsId()
    }

    ghost predicate Exhausted()
      reads this`lockId, this`exeQueue, exeQueue
    {
      forall id: nat :: 1 <= id <= maxExecutionId ==> Used(id)
    }

    /** Phases agree with the two histories. */
    ghost predicate FatesMatch()
      reads this`requests, this`granted, this`expired, requests
    {
      forall i :: 0 <= i < |requests| ==>
        && (i in granted <==> requests[i].phase.Granted? || requests[i].phase.Overdue? || requests[i].phase.Released?)
        && (i in expired <==> requests[i].phase.Expired?)
    }

    /** No phase changed, except that some requests started to wait. */
    twostate predicate OnlyStartedWaiting()
      reads this`requests, requests
    {
      && requests == old(requests)
      && forall i :: 0 <= i < |requests| ==>
           requests[i].phase == old(requests[i].phase) || (old(requests[i].phase.Allocating?) && requests[i].phase.Waiting?)
    }

    /** No phase changed, or one waiting request was granted and recorded as such. */
    twostate predicate OnlyGranted()
      reads this`requests, this`granted, this`owner, requests
    {
      && requests == old(requests)
      && if granted == old(granted) then forall i :: 0 <= i < |requests| ==> requests[i].phase == old(requests[i].phase)
         else owner != null && Known(owner) && granted == old(granted) + [owner.serial]
              && (var s := owner.serial; old(requests[s].phase.Waiting?) && requests[s].phase.Granted?)
              && forall i :: 0 <= i < |requests| && i != owner.serial ==> requests[i].phase == old(requests[i].phase)
    }

    twostate lemma WaitingKeepsFates()
      requires old(FatesMatch()) && OnlyStartedWaiting() && granted == old(granted) && expired == old(expired)
      ensures FatesMatch()
    {
    }

    twostate lemma GrantingKeepsFates()
      requires old(FatesMatch()) && OnlyGranted() && expired == old(expired)
      ensures FatesMatch()
    {
      if granted != old(granted) {
        assert forall i: nat :: i in granted <==> i in old(granted) || i == owner.serial;
      }
    }

    /** Between operations. */
    ghost predicate Valid()
      reads this, requests, exeQueue, allocationQueue, owner
    {
      && Coherent({}) && OrderedQueues() && FatesMatch()
      && L.Reachable(Abstract())
      && (allocationQueue != [] ==> Exhausted())
    }

    /** A free lock means that no one waits, with an id or without. */
    lemma FreeMeansNoOneWaits()
      requires Valid() && lockId.None?
      ensures exeQueue == [] && allocationQueue == []
    {
      L.ReachableKeeps(Abstract());
      MergeLength(Keys(exeQueue), Keys(allocationQueue));
    }

    lemma SerialsAreKnown()
      requires Valid()
      ensures forall r :: r in Keys(exeQueue) || r in Keys(allocationQueue) ==> r.serial < |requests|
      ensures forall s :: s in granted || s in expired ==> s < |requests|
    {
      L.ReachableKeeps(Abstract());
      MergeMembers(Keys(exeQueue), Keys(allocationQueue));
    }

    lemma OnlyKnownArePending(serial: nat)
      requires Valid()
      ensures L.IsPending(Abstract(), serial) ==> serial < |requests|
    {
      L.ReachableKeeps(Abstract());
    }

    lemma PendingByPhase(entry: Entry)
      requires Valid() && Known(entry)
      ensures L.IsPending(Abstract(), entry.serial) <==> entry.phase.Allocating? || entry.phase.Waiting?
    {
      L.ReachableKeeps(Abstract());
      assert requests[entry.serial] == entry;
    }

    /** The two queues and the owner, read as one stable priority lock. */
    ghost function Abstract(): L.Lock
      reads this
    {
      L.Lock(
        if owner == null then None else Some(owner.Key()),
        Merge(Keys(exeQueue), Keys(allocationQueue)),
        |requests|, granted, expired)
    }

    constructor (maxExecutionId: nat, reservationOwnerWatchdog: bool)
      requires 1 <= maxExecutionId
      ensures Valid() && Abstract() == L.FREE && fresh(this)
      ensures this.maxExecutionId == maxExecutionId && this.reservationOwnerWatchdog == reservationOwnerWatchdog
      ensures requests == [] && entries == {}
    {
      L.ReachableFree();
      this.maxExecutionId := maxExecutionId;
      this.reservationOwnerWatchdog := reservationOwnerWatchdog;
      lockId, owner, nextExecutionId := None, null, 1;
      exeQueue, allocationQueue, listeners := [], [], {};
      requests, entries, granted, expired, waiterOf := [], {}, [], {}, map[];
    }

    method IsExecutionIdUsed(id: nat) returns (used: bool)
      ensures used == Used(id)
    {
      if lockId == Some(id) { return true; }
      for i := 0 to |exeQueue|
        invariant forall j :: 0 <= j < i ==> !(exeQueue[j].id == Some(id) && exeQueue[j].HoldsId())
      {
        if exeQueue[i].id == Some(id) && exeQueue[i].HoldsId() { return true; }
      }
      return false;
    }

    /** Takes the first unused id met when going round from `nextExecutionId`. */
    method AllocateExecutionId(entry: Entry) returns (ok: bool)
      requires 1 <= nextExecutionId <= maxExecutionId
      requires entry !in exeQueue
      modifies this`nextExecutionId, entry`id
      ensures ok <==> !old(Exhausted())
      ensures ok ==> exists attempt: nat :: (attempt < maxExecutionId
                  && entry.id == Some(Tried(old(nextExecutionId), maxExecutionId, attempt))
                  && (forall k: nat :: k < attempt ==> old(Used(Tried(nextExecutionId, maxExecutionId, k))))
                  && nextExecutionId == Tried(old(nextExecutionId), maxExecutionId, attempt + 1))
      ensures ok ==> entry.id.Some? && 1 <= entry.id.value <= maxExecutionId && !Used(entry.id.value)
      ensures !ok ==> entry.id == old(entry.id) && nextExecutionId == old(nextExecutionId)
      ensures 1 <= nextExecutionId <= maxExecutionId
    {
      ghost var start := nextExecutionId;
      for attempt := 0 to maxExecutionId
        invariant nextExecutionId == Tried(start, maxExecutionId, attempt)
        invariant 1 <= nextExecutionId <= maxExecutionId
        invariant entry.id == old(entry.id)
        invariant forall k: nat :: k < attempt ==> old(Used(Tried(start, maxExecutionId, k)))
      {
        var candidate := nextExecutionId;
        nextExecutionId := if candidate == maxExecutionId then 1 else candidate + 1;
        assert nextExecutionId == Tried(start, maxExecutionId, attempt + 1);
        var used := IsExecutionIdUsed(candidate);
        if used { continue; }

        entry.id := Some(candidate);
        assert !Used(candidate);
        return true;
      }
      forall id: nat | 1 <= id <= maxExecutionId ensures old(Used(id)) {
        TriedCoversAll(start, maxExecutionId, id);
      }
      TriedClosed(start, maxExecutionId, maxExecutionId);
      return false;
    }

    static lemma SplicedKeys(queue: seq<Entry>, entry: Entry, p: nat)
      requires p <= |queue|
      ensures Keys(queue[..p] + [entry] + queue[p..]) == Keys(queue)[..p] + [entry.Key()] + Keys(queue)[p..]
    {
    }

    static lemma SplicedMembers(queue: seq<Entry>, entry: Entry, p: nat)
      requires p <= |queue|
      ensures forall e :: e in queue[..p] + [entry] + queue[p..] <==> e in queue || e == entry
    {
      assert queue == queue[..p] + queue[p..];
    }

    /** The queue with the entry spliced in front of the first one of strictly lower priority. */
    static method InsertByPriority(queue: seq<Entry>, entry: Entry) returns (inserted: seq<Entry>)
      ensures Keys(inserted) == Insert(Keys(queue), entry.Key())
      ensures forall e :: e in inserted <==> e in queue || e == entry
    {
      var p := 0;
      while p < |queue| && queue[p].priority >= entry.priority
        invariant p <= |queue|
        invariant forall i :: 0 <= i < p ==> queue[i].priority >= entry.priority
      {
        p := p + 1;
      }
      InsertAt(Keys(queue), entry.Key(), p);
      SplicedKeys(queue, entry, p);
      SplicedMembers(queue, entry, p);
      inserted := queue[..p] + [entry] + queue[p..];
    }

    ghost predicate HeadIsUnique(queue: seq<Entry>) {
      queue != [] && queue[0] !in queue[1..]
    }

    /** A request that has been given an unused id starts to wait and to listen. */
    method EnqueueWaiting(entry: Entry, ghost loose: set<Entry>)
      requires entry in loose && Coherent(loose) && Known(entry) && ReadyToWait(entry)
      modifies this`exeQueue, this`listeners, this`waiterOf, entry`phase
      ensures Coherent(loose - {entry}) && entry.phase.Waiting? && listeners == old(listeners) + {entry}
      ensures Keys(exeQueue) == Insert(old(Keys(exeQueue)), entry.Key())
    {
      var queue := InsertByPriority(exeQueue, entry);
      StartWaiting(entry, queue, loose);
    }

    ghost predicate ReadyToWait(entry: Entry)
      reads this`lockId, this`exeQueue, exeQueue, entry
    {
      && entry.id.Some? && 1 <= entry.id.value <= maxExecutionId && !Used(entry.id.value)
      && entry.phase.Allocating? && entry.settlements == [] && entry.timerArmed && !entry.ownerTimerArmed
    }

    method StartWaiting(entry: Entry, queue: seq<Entry>, ghost loose: set<Entry>)
      requires entry in loose && Coherent(loose) && Known(entry) && ReadyToWait(entry)
      requires forall e :: e in queue <==> e in exeQueue || e == entry
      modifies this`exeQueue, this`listeners, this`waiterOf, entry`phase
      ensures Coherent(loose - {entry}) && exeQueue == queue && entry.phase.Waiting?
      ensures listeners == old(listeners) + {entry}
    {
      assert forall e :: e in exeQueue ==> e.HoldsId() && e.id != entry.id;
      entry.phase := Waiting;
      listeners := listeners + {entry};
      waiterOf := waiterOf[entry.id.value := entry];
      exeQueue := queue;
    }

    /** A request for which no id is free waits for one. */
    method EnqueueAllocating(entry: Entry)
      requires Coherent({entry}) && Known(entry) && entry.id.None?
      requires entry.phase.Allocating? && entry.settlements == [] && entry.timerArmed && !entry.ownerTimerArmed
      requires entry !in listeners
      modifies this`allocationQueue
      ensures Coherent({})
      ensures Keys(allocationQueue) == Insert(old(Keys(allocationQueue)), entry.Key())
    {
      allocationQueue := InsertByPriority(allocationQueue, entry);
    }

    /** Tries to give the head of `allocationQueue` an id and move it to `exeQueue`. */
    method PromoteHead(entry: Entry, ghost loose: set<Entry>) returns (ok: bool)
      requires Coherent(loose) && HeadIsUnique(allocationQueue) && entry == allocationQueue[0]
      modifies this`exeQueue, this`allocationQueue, this`listeners, this`waiterOf, this`nextExecutionId
      modifies entry`id, entry`phase
      ensures Coherent(loose) && (entry.phase.Allocating? || entry.phase.Waiting?)
      ensures ok == !old(Exhausted())
      ensures !ok ==> exeQueue == old(exeQueue) && allocationQueue == old(allocationQueue) && Exhausted()
      ensures ok ==> allocationQueue == old(allocationQueue)[1..]
      ensures listeners <= old(listeners) + {entry}
      ensures ok ==> Keys(exeQueue) == Insert(old(Keys(exeQueue)), entry.Key())
    {
      assert entry in allocationQueue && Consistent(entry);
      ok := AllocateExecutionId(entry);
      if !ok { return; }

      allocationQueue := allocationQueue[1..];
      EnqueueWaiting(entry, loose + {entry});
      assert loose + {entry} - {entry} == loose;
    }

    /** Promoting a request leaves the two queues, read as one, unchanged. */
    method PromoteOne(ghost loose: set<Entry>) returns (ok: bool)
      requires Coherent(loose) && OrderedQueues() && allocationQueue != []
      modifies this`exeQueue, this`allocationQueue, this`listeners, this`waiterOf, this`nextExecutionId
      modifies entries`id, entries`phase
      ensures Coherent(loose) && OrderedQueues() && OnlyStartedWaiting()
      ensures Merge(Keys(exeQueue), Keys(allocationQueue)) == old(Merge(Keys(exeQueue), Keys(allocationQueue)))
      ensures ok == !old(Exhausted())
      ensures ok ==> |allocationQueue| == old(|allocationQueue|) - 1
      ensures !ok ==> Exhausted() && exeQueue == old(exeQueue) && allocationQueue == old(allocationQueue)
      ensures ok && allocationQueue != [] ==> exeQueue != [] && exeQueue[0].priority >= allocationQueue[0].priority
      ensures forall e :: e in loose ==> unchanged(e) && (e in listeners ==> e in old(listeners))
    {
      SortedHeadIsUnique(allocationQueue);
      MergePromote(Keys(exeQueue), Keys(allocationQueue));
      ghost var exeKeys, allocKeys := Keys(exeQueue), Keys(allocationQueue);
      var entry := allocationQueue[0];
      assert entry in allocationQueue && entry in entries;
      if !entry.phase.Allocating? { assert false; }
      ok := PromoteHead(entry, loose);
      if ok {
        assert Keys(allocationQueue) == allocKeys[1..];
        HeadAfterInsert(exeKeys, allocKeys);
      }
    }

    /** Gives ids to the requests at the head of `allocationQueue` while ids are free. */
    method AssignAllocationWaiters(ghost loose: set<Entry>)
      requires Coherent(loose) && OrderedQueues()
      modifies this`exeQueue, this`allocationQueue, this`listeners, this`waiterOf, this`nextExecutionId
      modifies entries`id, entries`phase
      ensures Coherent(loose) && OrderedQueues() && OnlyStartedWaiting()
      ensures Merge(Keys(exeQueue), Keys(allocationQueue)) == old(Merge(Keys(exeQueue), Keys(allocationQueue)))
      ensures allocationQueue != [] ==> Exhausted()
      ensures !old(Exhausted()) && allocationQueue != [] ==>
                exeQueue != [] && exeQueue[0].priority >= allocationQueue[0].priority
      ensures forall e :: e in loose ==> unchanged(e) && (e in listeners ==> e in old(listeners))
    {
      ghost var first := true;
      while |allocationQueue| > 0
        invariant Coherent(loose) && OrderedQueues() && OnlyStartedWaiting()
        invariant Merge(Keys(exeQueue), Keys(allocationQueue)) == old(Merge(Keys(exeQueue), Keys(allocationQueue)))
        invariant first ==> (Exhausted() <==> old(Exhausted()))
        invariant !first && allocationQueue != [] ==>
                    exeQueue != [] && exeQueue[0].priority >= allocationQueue[0].priority
        invariant forall e :: e in loose ==> unchanged(e) && (e in listeners ==> e in old(listeners))
        decreases |allocationQueue|
      {
        var ok := PromoteOne(loose);
        if !ok { return; }
        first := false;
      }
    }

    /** After the head of the second queue joined the first, the first one's head is no lower than the second's. */
    lemma HeadAfterInsert(a: seq<Request>, b: seq<Request>)
      requires Sorted(a) && Sorted(b) && b != []
      ensures Insert(a, b[0]) != []
      ensures |b| > 1 ==> Insert(a, b[0])[0].priority >= b[1].priority
    {
    }

    /** What `resolve` is called from: only the owner accepts the notice, and only once. */
    method Grant(entry: Entry, id: nat)
      modifies this`listeners, (if owner == entry then {entry} else {})`timerArmed
      modifies (if owner == entry then {entry} else {})`settlements
      ensures if owner == entry && entry.id == Some(id) && entry.phase.Granted?
              then !entry.timerArmed && listeners == old(listeners) - {entry}
                   && entry.settlements == old(entry.settlements) + [Resolved(id)]
              else listeners == old(listeners) && unchanged(entry)
    {
      if owner != entry || entry.id != Some(id) || !entry.phase.Granted? { return; }

      entry.timerArmed := false;
      listeners := listeners - {entry};
      entry.settlements := entry.settlements + [Resolved(id)];
    }

    /** Notifies everyone who was listening when the event was emitted, in any order. */
    method Emit(id: nat)
      requires owner != null && owner in listeners && owner.id == Some(id) && owner.phase.Granted?
      modifies this`listeners, owner`timerArmed, owner`settlements
      ensures !owner.timerArmed && owner.settlements == old(owner.settlements) + [Resolved(id)]
      ensures listeners == old(listeners) - {owner}
    {
      var notified := listeners;
      while notified != {}
        invariant notified <= old(listeners)
        invariant if owner in notified
                  then listeners == old(listeners) && unchanged(owner)
                  else listeners == old(listeners) - {owner} && !owner.timerArmed
                       && owner.settlements == old(owner.settlements) + [Resolved(id)]
        decreases notified
      {
        var listener :| listener in notified;
        notified := notified - {listener};
        Grant(listener, id);
      }
    }

    method StartOwnerWatchdog(entry: Entry)
      modifies entry`ownerTimerArmed
      ensures entry.ownerTimerArmed == (old(entry.ownerTimerArmed) || reservationOwnerWatchdog)
    {
      if !reservationOwnerWatchdog { return; }
      entry.ownerTimerArmed := true;
    }

    /** Makes the head of `exeQueue` the owner; it has not been told yet. */
    method TakeLock(entry: Entry)
      requires Coherent({}) && lockId.None? && HeadIsUnique(exeQueue) && entry == exeQueue[0] && entry in exeQueue
      modifies this`lockId, this`owner, this`exeQueue, entry`phase, entry`ownerTimerArmed
      ensures Coherent({entry}) && owner == entry && entry.phase.Granted? && lockId == entry.id && entry.id.Some?
      ensures entry in listeners && entry.timerArmed && entry.settlements == []
      ensures entry.ownerTimerArmed == reservationOwnerWatchdog
      ensures exeQueue == old(exeQueue)[1..]
    {
      assert Waits(entry) && Consistent(entry);
      assert forall e :: e in exeQueue && e.id == entry.id ==> e == entry;
      exeQueue := exeQueue[1..];
      lockId := entry.id;
      owner := entry;
      entry.phase := Granted;
      StartOwnerWatchdog(entry);
      assert forall e :: e in old(exeQueue) ==> e == entry || e in exeQueue;
    }

    /** Tells the new owner, and only the new owner, that it holds the lock. */
    method TellOwner(entry: Entry)
      requires Coherent({entry}) && owner == entry && entry.phase.Granted? && lockId == entry.id && entry.id.Some?
      requires entry in listeners && entry.settlements == [] && entry.ownerTimerArmed == reservationOwnerWatchdog
      modifies this`listeners, entry`timerArmed, entry`settlements
      ensures Coherent({}) && entry.settlements == [Resolved(entry.id.value)]
    {
      Emit(entry.id.value);
    }

    /** Gives the free lock to the head of a non-empty `exeQueue`. */
    method GrantHead(entry: Entry)
      requires Coherent({}) && lockId.None? && HeadIsUnique(exeQueue) && entry == exeQueue[0]
      modifies this`lockId, this`owner, this`exeQueue, this`listeners, this`granted, entry
      ensures Coherent({}) && owner == entry && exeQueue == old(exeQueue)[1..]
      ensures granted == old(granted) + [entry.serial] && OnlyGranted()
      ensures old(Exhausted()) ==> Exhausted()
    {
      assert entry in exeQueue;
      if !entry.phase.Waiting? || entry.id.None? { assert false; }
      TakeLock(entry);
      TellOwner(entry);
      granted := granted + [entry.serial];
      forall id: nat | old(Used(id)) ensures Used(id) {
        var e :| e in old(exeQueue) && old(e.id == Some(id) && e.HoldsId());
        assert e == entry || e in exeQueue;
      }
    }

    method GrantFirst()
      requires Coherent({}) && OrderedQueues() && ReadyToGrant()
      modifies this`lockId, this`owner, this`exeQueue, this`listeners, this`granted
      modifies if exeQueue == [] then {} else {exeQueue[0]}
      ensures Coherent({}) && OrderedQueues() && OnlyGranted()
      ensures Abstract() == L.GrantHead(old(Abstract()))
      ensures allocationQueue != [] ==> Exhausted()
    {
      if lockId.Some? || |exeQueue| == 0 { return; }

      SortedHeadIsUnique(exeQueue);
      ghost var keys := Keys(exeQueue);
      GrantHead(exeQueue[0]);
      assert Keys(exeQueue) == keys[1..];
    }

    /** The next request in service order has an id, and no request waits for a free id. */
    ghost predicate ReadyToGrant()
      reads this`lockId, this`exeQueue, this`allocationQueue, exeQueue
    {
      && (allocationQueue != [] ==> Exhausted())
      && (lockId.None? && allocationQueue != [] ==>
            exeQueue != [] && exeQueue[0].priority >= allocationQueue[0].priority)
    }

    /** Gives a free lock to the head of `exeQueue`. */
    method GrantNext()
      requires Coherent({}) && OrderedQueues() && FatesMatch() && ReadyToGrant()
      requires L.Reachable(L.GrantHead(Abstract()))
      modifies this`lockId, this`owner, this`exeQueue, this`listeners, this`granted
      modifies if exeQueue == [] then {} else {exeQueue[0]}
      ensures Valid() && Abstract() == L.GrantHead(old(Abstract()))
    {
      GrantFirst();
      GrantingKeepsFates();
    }

    lemma SortedHeadIsUnique(queue: seq<Entry>)
      requires queue != [] && Sorted(Keys(queue))
      ensures HeadIsUnique(queue)
    {
      assert forall i :: 0 < i < |queue| ==> Before(Keys(queue)[0], Keys(queue)[i]);
    }

    method CreateEntry(priority: int) returns (entry: Entry)
      requires Coherent({}) && FatesMatch()
      requires forall s :: s in granted || s in expired ==> s < |requests|
      modifies this`requests, this`entries
      ensures fresh(entry) && requests == old(requests) + [entry] && entries == old(entries) + {entry} && Coherent({entry}) && FatesMatch()
      ensures Known(entry) && entry.priority == priority && Unqueued(entry)
    {
      entry := new Entry(|requests|, priority);
      requests := requests + [entry];
      entries := entries + {entry};
    }

    ghost predicate Unqueued(entry: Entry)
      reads this`listeners, this`exeQueue, this`allocationQueue, entry
    {
      && entry.id.None? && entry.phase.Allocating? && entry.settlements == []
      && entry.timerArmed && !entry.ownerTimerArmed
      && entry !in listeners && entry !in exeQueue && entry !in allocationQueue
    }

    /** Puts a new request in the queue it belongs to. */
    method Enqueue(entry: Entry)
      requires Coherent({entry}) && OrderedQueues() && Known(entry) && Unqueued(entry)
      requires forall r :: r in Keys(exeQueue) || r in Keys(allocationQueue) ==> r.serial < entry.serial
      requires allocationQueue != [] ==> Exhausted()
      modifies this`exeQueue, this`allocationQueue, this`listeners, this`waiterOf, this`nextExecutionId
      modifies entry`id, entry`phase
      ensures Coherent({}) && OrderedQueues() && OnlyStartedWaiting()
      ensures Merge(Keys(exeQueue), Keys(allocationQueue))
           == Insert(old(Merge(Keys(exeQueue), Keys(allocationQueue))), entry.Key())
      ensures allocationQueue != [] ==> Exhausted()
      ensures old(allocationQueue == [] && !Exhausted()) ==> allocationQueue == []
    {
      ghost var exeKeys, allocKeys := Keys(exeQueue), Keys(allocationQueue);
      var ok := AllocateExecutionId(entry);
      if ok {
        EnqueueWaiting(entry, {entry});
        MergeInsertFirst(exeKeys, entry.Key());
      } else {
        EnqueueAllocating(entry);
        MergeInsertSecond(exeKeys, allocKeys, entry.Key());
      }
    }

    /** What a newcomer finds: its number is new, and a free lock means empty queues. */
    ghost predicate ReadyToAdmit()
      reads this
    {
      && (forall r :: r in Keys(exeQueue) || r in Keys(allocationQueue) ==> r.serial < |requests|)
      && (forall s :: s in granted || s in expired ==> s < |requests|)
      && (lockId.None? ==> exeQueue == [] && allocationQueue == [])
    }

    /** Creates a request and queues it, before the lock is looked at. */
    method Admit(priority: int) returns (entry: Entry)
      requires Coherent({}) && OrderedQueues() && FatesMatch() && ReadyToAdmit()
      requires allocationQueue != [] ==> Exhausted()
      requires lockId.None? ==> !Exhausted()
      modifies this`requests, this`entries, this`exeQueue, this`allocationQueue, this`listeners, this`waiterOf
      modifies this`nextExecutionId
      ensures Coherent({}) && OrderedQueues() && FatesMatch() && ReadyToGrant()
      ensures fresh(entry) && requests == old(requests) + [entry] && entries == old(entries) + {entry}
      ensures entry.priority == priority && entry.serial == old(|requests|)
      ensures Abstract() == var l := old(Abstract());
        l.(pending := Insert(l.pending, Request(l.arrivals, priority)), arrivals := l.arrivals + 1)
    {
      entry := CreateEntry(priority);
      label created:
      Enqueue(entry);
      WaitingKeepsFates@created();
    }

    lemma NewcomerFinds()
      requires Valid()
      ensures ReadyToAdmit() && (lockId.None? ==> !Exhausted())
    {
      SerialsAreKnown();
      if lockId.None? {
        FreeMeansNoOneWaits();
        assert !Used(1);
      }
    }

    /** Asks for the lock; the request's timer is left to `Expire`. */
    method GetExecution(priority: int) returns (entry: Entry)
      requires Valid()
      modifies this, entries
      ensures Valid() && fresh(entry) && requests == old(requests) + [entry] && entries == old(entries) + {entry}
      ensures entry.priority == priority && entry.serial == |old(requests)|
      ensures Abstract() == L.Ask(old(Abstract()), priority)
    {
      L.ReachableStep(Abstract(), L.Asked(priority));
      NewcomerFinds();
      entry := Admit(priority);
      assert exeQueue != [] ==> exeQueue[0] in exeQueue;
      GrantNext();
    }

    method ClearOwnerWatchdog(entry: Entry)
      modifies entry`ownerTimerArmed
      ensures !entry.ownerTimerArmed
    {
      if !entry.ownerTimerArmed { return; }
      entry.ownerTimerArmed := false;
    }

    method ReleaseOwner()
      requires Coherent({}) && FatesMatch() && owner != null
      modifies this`owner, this`lockId, owner`phase, owner`ownerTimerArmed
      ensures Coherent({}) && FatesMatch()
      ensures owner == null && lockId == None && !Exhausted()
    {
      ghost var freed := lockId.value;
      assert Consistent(requests[owner.serial]) && freed >= 1;
      ClearOwnerWatchdog(owner);
      owner.phase := Released;
      owner := null;
      lockId := None;
      assert !Used(freed);
    }

    /** Frees the lock and hands the freed id on, before the lock is granted again. */
    method Free()
      requires Coherent({}) && OrderedQueues() && FatesMatch() && owner != null
      modifies this`owner, this`lockId, this`exeQueue, this`allocationQueue, this`listeners, this`waiterOf
      modifies this`nextExecutionId, entries
      ensures Coherent({}) && OrderedQueues() && FatesMatch() && ReadyToGrant()
      ensures owner == null && lockId == None
      ensures Merge(Keys(exeQueue), Keys(allocationQueue)) == old(Merge(Keys(exeQueue), Keys(allocationQueue)))
      ensures exeQueue != [] ==> exeQueue[0] in entries
    {
      assert owner in entries;
      ReleaseOwner();
      label released:
      AssignAllocationWaiters({});
      WaitingKeepsFates@released();
      assert exeQueue != [] ==> exeQueue[0] in exeQueue;
    }

    method PassOn()
      requires Valid() && owner != null
      modifies this, entries
      ensures Valid() && requests == old(requests) && entries == old(entries) && Abstract() == L.Unlock(old(Abstract()))
    {
      L.ReachableStep(Abstract(), L.Unlocked(owner.serial));
      Free();
      assert Abstract() == old(Abstract()).(holder := None);
      GrantNext();
    }

    /** Gives the lock back; any other id than the current owner's changes nothing. */
    method UnLockExecution(id: nat)
      requires Valid()
      modifies this, entries
      ensures Valid() && requests == old(requests) && entries == old(entries)
      ensures old(lockId) == Some(id) ==> Abstract() == L.Unlock(old(Abstract()))
      ensures old(lockId) != Some(id) ==> unchanged(this) && forall e :: e in entries ==> unchanged(e)
    {
      if lockId != Some(id) || owner == null || !(owner.phase.Granted? || owner.phase.Overdue?) { return; }

      PassOn();
    }

    /** The owner's watchdog timer. */
    method OwnerOverdue(entry: Entry)
      requires Valid() && Known(entry)
      modifies entry`ownerTimerArmed, entry`phase
      ensures Valid() && Abstract() == old(Abstract())
      ensures entry.phase == if owner == entry && old(entry.phase.Granted?) then Overdue else old(entry.phase)
    {
      if owner != entry || !entry.phase.Granted? { return; }

      entry.ownerTimerArmed := false;
      entry.phase := Overdue;
    }

    /** The queue without the entry, if it was there. */
    static method RemoveEntryByIdentity(queue: seq<Entry>, entry: Entry) returns (rest: seq<Entry>)
      requires forall e :: e in queue && e.serial == entry.serial ==> e == entry
      requires forall i, j :: 0 <= i < j < |queue| ==> queue[i] != queue[j]
      ensures Keys(rest) == Remove(Keys(queue), entry.serial)
      ensures forall e :: e in rest ==> e in queue && e != entry
      ensures forall e :: e in queue && e != entry ==> e in rest
    {
      var index := 0;
      while index < |queue| && queue[index] != entry
        invariant index <= |queue|
        invariant entry !in queue[..index]
      {
        index := index + 1;
      }
      if index == |queue| {
        assert entry !in queue;
        RemoveAbsent(Keys(queue), entry.serial);
        return queue;
      }
      assert forall i :: 0 <= i < |queue| && i != index ==> queue[i] != entry && queue[i].serial != entry.serial;
      RemoveOnly(Keys(queue), index);
      rest := queue[..index] + queue[index + 1..];
      assert Keys(rest) == Keys(queue)[..index] + Keys(queue)[index + 1..];
      assert queue == queue[..index] + [entry] + queue[index + 1..];
    }

    ghost predicate Distinct(queue: seq<Entry>) {
      forall i, j :: 0 <= i < j < |queue| ==> queue[i] != queue[j]
    }

    lemma SortedIsDistinct(queue: seq<Entry>)
      requires Sorted(Keys(queue))
      ensures Distinct(queue)
    {
      assert forall i, j :: 0 <= i < j < |queue| ==> Before(Keys(queue)[i], Keys(queue)[j]);
    }

    method RemoveEntry(entry: Entry)
      requires Coherent({}) && Known(entry) && OrderedQueues()
      modifies this`exeQueue, this`allocationQueue
      ensures Keys(exeQueue) == Remove(old(Keys(exeQueue)), entry.serial)
      ensures Keys(allocationQueue) == Remove(old(Keys(allocationQueue)), entry.serial)
      ensures Coherent({entry})
    {
      SortedIsDistinct(exeQueue);
      SortedIsDistinct(allocationQueue);
      var allocating := RemoveEntryByIdentity(allocationQueue, entry);
      var waiting := RemoveEntryByIdentity(exeQueue, entry);
      KeepOthers(entry, waiting, allocating);
    }

    method KeepOthers(entry: Entry, waiting: seq<Entry>, allocating: seq<Entry>)
      requires Coherent({})
      requires forall e :: e in waiting ==> e in exeQueue && e != entry
      requires forall e :: e in exeQueue && e != entry ==> e in waiting
      requires forall e :: e in allocating ==> e in allocationQueue && e != entry
      modifies this`exeQueue, this`allocationQueue
      ensures Coherent({entry}) && exeQueue == waiting && allocationQueue == allocating
    {
      allocationQueue := allocating;
      exeQueue := waiting;
    }

    /** Takes a pending request out; its caller has not been told yet. */
    method Withdraw(entry: Entry)
      requires Coherent({}) && OrderedQueues() && FatesMatch() && Known(entry)
      requires entry.phase.Allocating? || entry.phase.Waiting?
      modifies this`exeQueue, this`allocationQueue, this`listeners, this`expired, entry`phase, entry`timerArmed
      ensures Coherent({entry}) && OrderedQueues() && FatesMatch()
      ensures Merge(Keys(exeQueue), Keys(allocationQueue))
           == Remove(old(Merge(Keys(exeQueue), Keys(allocationQueue))), entry.serial)
      ensures expired == old(expired) + {entry.serial} && entry.phase.Expired? && !entry.timerArmed
      ensures entry != owner && entry !in listeners
    {
      MergeRemove(Keys(exeQueue), Keys(allocationQueue), entry.serial);
      RemoveEntry(entry);
      CloseEntry(entry);
    }

    method CloseEntry(entry: Entry)
      requires Coherent({entry}) && FatesMatch() && Known(entry)
      requires entry.phase.Allocating? || entry.phase.Waiting?
      modifies this`listeners, this`expired, entry`phase, entry`timerArmed
      ensures Coherent({entry}) && FatesMatch()
      ensures expired == old(expired) + {entry.serial} && entry.phase.Expired? && !entry.timerArmed
      ensures entry != owner && entry !in listeners
    {
      entry.phase := Expired;
      entry.timerArmed := false;
      listeners := listeners - {entry};
      expired := expired + {entry.serial};
    }

    method ExpirePending(entry: Entry)
      requires Valid() && Known(entry) && (entry.phase.Allocating? || entry.phase.Waiting?)
      modifies this, entries
      ensures Valid() && requests == old(requests) && entries == old(entries) && Abstract() == L.TimeOut(old(Abstract()), entry.serial)
      ensures entry.phase.Expired? && entry.settlements == [Rejected]
    {
      L.ReachableStep(Abstract(), L.TimedOut(entry.serial));
      assert entry in entries && Consistent(entry);
      PendingByPhase(entry);
      Withdraw(entry);
      assert Abstract() == L.TimeOut(old(Abstract()), entry.serial);
      Resume(entry);
    }

    /** Hands on the id that an expired request may have freed, and tells the request's caller. */
    method Resume(entry: Entry)
      requires Coherent({entry}) && OrderedQueues() && FatesMatch() && Known(entry) && L.Reachable(Abstract())
      requires entry.phase.Expired? && !entry.timerArmed && !entry.ownerTimerArmed && entry.settlements == []
      requires entry != owner && entry !in listeners
      modifies this`exeQueue, this`allocationQueue, this`listeners, this`waiterOf, this`nextExecutionId
      modifies entries
      ensures Valid() && Abstract() == old(Abstract())
      ensures entry.phase.Expired? && entry.settlements == [Rejected]
    {
      assert entry in entries;
      AssignAllocationWaiters({entry});
      WaitingKeepsFates();
      Reject(entry);
    }

    method Reject(entry: Entry)
      requires Coherent({entry}) && entry.phase.Expired? && entry.settlements == []
      requires !entry.timerArmed && !entry.ownerTimerArmed && entry != owner && entry !in listeners
      modifies entry`settlements
      ensures Coherent({}) && entry.settlements == [Rejected]
    {
      entry.settlements := entry.settlements + [Rejected];
    }

    /** The request's timer. A request that no longer waits is left alone. */
    method Expire(entry: Entry)
      requires Valid() && Known(entry)
      modifies this, entries
      ensures Valid() && requests == old(requests) && entries == old(entries) && Abstract() == L.TimeOut(old(Abstract()), entry.serial)
      ensures old(entry.phase.Allocating? || entry.phase.Waiting?) ==> entry.settlements == [Rejected]
    {
      PendingByPhase(entry);
      if !entry.phase.Allocating? && !entry.phase.Waiting? { return; }

      ExpirePending(entry);
    }

    /** What every operation leaves: ids are never shared, and exactly the waiting requests listen. */
    lemma IdsAndListeners()
      requires Valid()
      ensures forall d, e :: d in exeQueue && e in exeQueue && d.id == e.id ==> d == e
      ensures forall e :: e in exeQueue ==> e.id.Some? && 1 <= e.id.value <= maxExecutionId && e.id != lockId
      ensures listeners == set e | e in exeQueue
      ensures allocationQueue != [] ==> forall id: nat :: 1 <= id <= maxExecutionId ==> Used(id)
    {
      assert forall e :: e in exeQueue ==> Waits(e);
    }

    /** A caller that was told an id was told that of its request, one of the ids there are. */
    lemma ToldItsId(entry: Entry)
      requires Valid() && Known(entry) && entry.settlements != [] && entry.settlements[0].Resolved?
      ensures entry.id == Some(entry.settlements[0].id) && 1 <= entry.settlements[0].id <= maxExecutionId
      ensures lockId.Some? ==> owner != null && 1 <= lockId.value <= maxExecutionId && (owner == entry ==> lockId == entry.id)
    {
      assert Consistent(requests[entry.serial]);
    }

    /** A promise is resolved exactly if its request was granted and rejected exactly if it expired, once. */
    lemma SettledOnce(entry: Entry)
      requires Valid() && Known(entry)
      ensures |entry.settlements| <= 1
      ensures entry.serial in granted <==> exists id :: entry.settlements == [Resolved(id)]
      ensures entry.serial in expired <==> entry.settlements == [Rejected]
      ensures entry.phase.Granted? || entry.phase.Overdue? <==> entry == owner
    {
      assert Consistent(requests[entry.serial]);
      if entry.serial in granted {
        assert entry.settlements == [Resolved(entry.id.value)];
      }
    }
  }

  /**
   Drives the lock with a whole run of events; whoever unlocks gives the id that it was told. The
   order of the grants is that of the stable queue for the events that took effect: the given ones,
   but that an unlock by a request that has already given the lock back, when its id is in use
   again, unlocks the present holder. With a single id it always does.
   */
  method Replay(maxExecutionId: nat, watchdog: bool, events: seq<L.Event>) returns (served: seq<nat>)
    requires 1 <= maxExecutionId
    ensures exists done :: L.Follows(events, done) && L.Asks(done) == L.Asks(events) && served == L.Run(done).granted
    ensures L.NoneStale(events) ==> served == L.Run(events).granted
    ensures maxExecutionId == 1 ==> served == L.Run(L.WithOneId(events)).granted
  {
    var model := new ExecutionManagementModel(maxExecutionId, watchdog);
    served := [];
    ghost var done: seq<L.Event> := [];
    for n := 0 to |events|
      invariant fresh(model) && fresh(model.entries) && model.maxExecutionId == maxExecutionId
      invariant Replayed(model, served, done) && L.Took(events, n, done, maxExecutionId == 1)
    {
      ghost var effect;
      served, effect := PlayNext(model, events[n], served, done);
      L.Extend(events, n, done, effect, maxExecutionId == 1);
      done := done + [effect];
    }
    assert events[..|events|] == events;
    L.FollowsWithoutStale(events, done);
    L.FollowsAsks(events, done);
  }

  /** The state is that of the stable lock after the events that took effect. */
  ghost predicate Replayed(model: ExecutionManagementModel, served: seq<nat>, done: seq<L.Event>)
    reads model, model.requests, model.exeQueue, model.allocationQueue, model.owner
  {
    model.Valid() && model.Abstract() == L.Run(done) && served == L.Run(done).granted
  }

  method PlayNext(model: ExecutionManagementModel, event: L.Event, served: seq<nat>, ghost done: seq<L.Event>)
    returns (more: seq<nat>, ghost effect: L.Event)
    requires Replayed(model, served, done)
    modifies model, model.entries
    ensures Replayed(model, more, done + [effect]) && fresh(model.entries - old(model.entries))
    ensures L.Amounts(L.Run(done), event, effect)
    ensures model.maxExecutionId == 1 ==> effect == L.OneIdEffect(L.Run(done), event)
  {
    effect := PlayOne(model, event);
    L.NextRun(done, effect);
    ghost var m := model.Abstract();
    assert m == L.Run(done + [effect]);
    more := Note(model, served);
    assert more == m.granted;
  }

  /** With one id, a repeated unlock by the first request takes the lock from the second one. */
  method RepeatedUnlock() returns (served: seq<nat>)
    ensures served == [0, 1, 2] && L.Run(L.REPEATED_UNLOCK).granted == [0, 1]
  {
    served := Replay(1, false, L.REPEATED_UNLOCK);
    L.RepeatedUnlockIsStale();
  }

  /** Notes the current owner unless it is the one noted last. */
  method Note(model: ExecutionManagementModel, served: seq<nat>) returns (noted: seq<nat>)
    ensures noted == L.WithHolder(served, model.Abstract().holder)
  {
    if model.owner != null && (served == [] || served[|served| - 1] != model.owner.serial) {
      return served + [model.owner.serial];
    }
    return served;
  }

  /** `effect` is the event, or the unlock by the present holder that a stale unlock amounts to. */
  method PlayOne(model: ExecutionManagementModel, event: L.Event) returns (ghost effect: L.Event)
    requires model.Valid()
    modifies model, model.entries
    ensures model.Valid() && model.Abstract() == L.Step(old(model.Abstract()), effect)
    ensures L.Amounts(old(model.Abstract()), event, effect)
    ensures model.maxExecutionId == 1 ==> effect == L.OneIdEffect(old(model.Abstract()), event)
    ensures fresh(model.entries - old(model.entries))
  {
    effect := event;
    match event
    case Asked(priority) =>
      var _ := model.GetExecution(priority);
    case TimedOut(serial) =>
      model.OnlyKnownArePending(serial);
      if serial < |model.requests| { model.Expire(model.requests[serial]); }
    case Unlocked(serial) =>
      effect := UnlockByCaller(model, serial);
    case WatchdogFired(serial) =>
      if serial < |model.requests| { model.OwnerOverdue(model.requests[serial]); }
  }

  /** The caller of the request, if it was told an id, gives that id back. */
  method UnlockByCaller(model: ExecutionManagementModel, serial: nat) returns (ghost effect: L.Event)
    requires model.Valid()
    modifies model, model.entries
    ensures model.Valid() && model.entries == old(model.entries)
    ensures model.Abstract() == L.Step(old(model.Abstract()), effect)
    ensures L.Amounts(old(model.Abstract()), L.Unlocked(serial), effect)
    ensures model.maxExecutionId == 1 ==> effect == L.OneIdEffect(old(model.Abstract()), L.Unlocked(serial))
  {
    ghost var l := model.Abstract();
    effect := L.Unlocked(serial);
    model.SerialsAreKnown();
    L.ReachableKeeps(l);
    if serial >= |model.requests| { return; }
    var entry := model.requests[serial];
    model.SettledOnce(entry);
    if entry.settlements == [] || entry.settlements[0].Rejected? { return; }
    model.ToldItsId(entry);
    if model.lockId == Some(entry.settlements[0].id) && model.owner != entry { effect := L.HolderUnlocks(l); }
    model.UnLockExecution(entry.settlements[0].id);
  }
}
