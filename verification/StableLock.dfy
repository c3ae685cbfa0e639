/**
 One exclusive lock served by one stable priority queue: the meaning that
 `ExecutionManagementModel` is proved to have. There are no ids and no second queue here.
 */
module StableLock {
  import opened Options
  import opened PriorityOrder

  datatype Lock = Lock(
    holder: Option<Request>,
    pending: seq<Request>,
    arrivals: nat,
    granted: seq<nat>,
    expired: set<nat>)

  const FREE := Lock(None, [], 0, [], {})

  function GrantHead(l: Lock): Lock {
    if l.holder.Some? || l.pending == [] then l
    else l.(holder := Some(l.pending[0]), pending := l.pending[1..], granted := l.granted + [l.pending[0].serial])
  }

  function Ask(l: Lock, priority: int): Lock {
    GrantHead(l.(pending := Insert(l.pending, Request(l.arrivals, priority)), arrivals := l.arrivals + 1))
  }

  predicate IsPending(l: Lock, serial: nat) {
    exists r :: r in l.pending && r.serial == serial
  }

  function TimeOut(l: Lock, serial: nat): Lock {
    if IsPending(l, serial)
    then l.(pending := Remove(l.pending, serial), expired := l.expired + {serial})
    else l
  }

  function Unlock(l: Lock): Lock {
    GrantHead(l.(holder := None))
  }

  /** What clients and timers do, named by arrival number and never by id. */
  datatype Event =
    | Asked(priority: int)
    | TimedOut(serial: nat)
    | Unlocked(serial: nat)
    | WatchdogFired(serial: nat)

  predicate Holds(l: Lock, serial: nat) {
    l.holder.Some? && l.holder.value.serial == serial
  }

  function Step(l: Lock, e: Event): Lock {
    match e
    case Asked(priority) => Ask(l, priority)
    case TimedOut(serial) => TimeOut(l, serial)
    case Unlocked(serial) => if Holds(l, serial) then Unlock(l) else l
    case WatchdogFired(_) => l
  }

  function Run(events: seq<Event>): Lock {
    if events == [] then FREE else Step(Run(events[..|events| - 1]), events[|events| - 1])
  }

  /** No two pending requests share an arrival number, and all numbers are already given out. */
  ghost predicate Numbered(l: Lock) {
    && (forall r :: r in l.pending ==> r.serial < l.arrivals)
    && (forall x, y :: x in l.pending && y in l.pending && x.serial == y.serial ==> x == y)
  }

  /** Between operations: the queue is in service order and a free lock has no one waiting. */
  ghost predicate Settled(l: Lock) {
    Sorted(l.pending) && Numbered(l) && (l.holder.None? ==> l.pending == [])
  }

  /** Every arrived request has exactly one fate: pending, granted once, or expired. */
  ghost predicate OneFateEach(l: Lock) {
    && (forall i, j :: 0 <= i < j < |l.granted| ==> l.granted[i] != l.granted[j])
    && (forall s :: s in l.granted ==> s < l.arrivals && s !in l.expired && !IsPending(l, s))
    && (forall s :: s in l.expired ==> s < l.arrivals && !IsPending(l, s))
    && (forall s: nat :: s < l.arrivals ==> s in l.granted || s in l.expired || IsPending(l, s))
  }

  /** The holder is the latest grant. */
  ghost predicate HolderIsLast(l: Lock) {
    l.holder.Some? ==> l.granted != [] && l.granted[|l.granted| - 1] == l.holder.value.serial
  }

  lemma GrantHeadKeeps(l: Lock)
    requires Sorted(l.pending) && Numbered(l) && OneFateEach(l) && HolderIsLast(l)
    ensures Settled(GrantHead(l)) && OneFateEach(GrantHead(l)) && HolderIsLast(GrantHead(l))
  {
    var g := GrantHead(l);
    if g != l {
      var head := l.pending[0];
      HeadFirst(l.pending);
      assert l.pending == [head] + g.pending;
      forall s: nat ensures IsPending(g, s) <==> IsPending(l, s) && s != head.serial {
        if IsPending(g, s) {
          var r :| r in g.pending && r.serial == s;
          assert r in l.pending && Before(head, r);
        }
        if IsPending(l, s) && s != head.serial {
          var r :| r in l.pending && r.serial == s;
          assert r in g.pending;
        }
      }
      assert IsPending(l, head.serial);
      assert forall s :: s in g.granted <==> s in l.granted || s == head.serial;
    }
  }

  lemma PendingAfterInsert(l: Lock, m: Lock, r: Request)
    requires m.pending == Insert(l.pending, r)
    ensures forall s: nat :: IsPending(m, s) <==> IsPending(l, s) || s == r.serial
  {
    InsertMembers(l.pending, r);
    forall s: nat ensures IsPending(m, s) <==> IsPending(l, s) || s == r.serial {
      if IsPending(l, s) {
        var x :| x in l.pending && x.serial == s;
        assert x in m.pending;
      }
      if s == r.serial { assert r in m.pending; }
    }
  }

  lemma AskKeeps(l: Lock, priority: int)
    requires Settled(l) && OneFateEach(l) && HolderIsLast(l)
    ensures Settled(Ask(l, priority)) && OneFateEach(Ask(l, priority)) && HolderIsLast(Ask(l, priority))
  {
    var r := Request(l.arrivals, priority);
    var m := l.(pending := Insert(l.pending, r), arrivals := l.arrivals + 1);
    InsertSorted(l.pending, r);
    InsertMembers(l.pending, r);
    PendingAfterInsert(l, m, r);
    GrantHeadKeeps(m);
  }

  lemma TimeOutKeeps(l: Lock, serial: nat)
    requires Settled(l) && OneFateEach(l) && HolderIsLast(l)
    ensures Settled(TimeOut(l, serial)) && OneFateEach(TimeOut(l, serial)) && HolderIsLast(TimeOut(l, serial))
  {
    if IsPending(l, serial) {
      var m := TimeOut(l, serial);
      RemoveSorted(l.pending, serial);
      RemoveMembers(l.pending, serial);
      forall s: nat ensures IsPending(m, s) <==> IsPending(l, s) && s != serial {
        if IsPending(l, s) && s != serial {
          var x :| x in l.pending && x.serial == s;
          assert x in m.pending;
        }
      }
    }
  }

  lemma UnlockKeeps(l: Lock)
    requires Settled(l) && OneFateEach(l) && HolderIsLast(l)
    ensures Settled(Unlock(l)) && OneFateEach(Unlock(l)) && HolderIsLast(Unlock(l))
  {
    var m := l.(holder := None);
    assert forall s: nat :: IsPending(m, s) <==> IsPending(l, s);
    GrantHeadKeeps(m);
  }

  lemma StepKeeps(l: Lock, e: Event)
    requires Settled(l) && OneFateEach(l) && HolderIsLast(l)
    ensures Settled(Step(l, e)) && OneFateEach(Step(l, e)) && HolderIsLast(Step(l, e))
  {
    match e
    case Asked(priority) => AskKeeps(l, priority);
    case TimedOut(serial) => TimeOutKeeps(l, serial);
    case Unlocked(serial) => UnlockKeeps(l);
    case WatchdogFired(_) =>
  }

  /** In every run no request is lost, granted twice, or both granted and expired. */
  lemma {:induction false} RunKeeps(events: seq<Event>)
    ensures Settled(Run(events)) && OneFateEach(Run(events)) && HolderIsLast(Run(events))
  {
    if events != [] {
      RunKeeps(events[..|events| - 1]);
      StepKeeps(Run(events[..|events| - 1]), events[|events| - 1]);
    }
  }

  ghost predicate Reachable(l: Lock) {
    exists events :: Run(events) == l
  }

  lemma ReachableFree()
    ensures Reachable(FREE)
  {
    assert Run([]) == FREE;
  }

  lemma ReachableStep(l: Lock, e: Event)
    requires Reachable(l)
    ensures Reachable(Step(l, e))
  {
    var events :| Run(events) == l;
    assert (events + [e])[..|events|] == events;
    assert Run(events + [e]) == Step(l, e);
  }

  lemma ReachableKeeps(l: Lock)
    requires Reachable(l)
    ensures Settled(l) && OneFateEach(l) && HolderIsLast(l)
  {
    var events :| Run(events) == l;
    RunKeeps(events);
  }

  /** The grants so far, and the holder unless it is the latest of them. */
  function WithHolder(granted: seq<nat>, holder: Option<Request>): seq<nat> {
    if holder.None? || (granted != [] && granted[|granted| - 1] == holder.value.serial) then granted
    else granted + [holder.value.serial]
  }

  lemma GrantHeadShows(l: Lock)
    requires HolderIsLast(l) && (l.pending != [] ==> l.pending[0].serial !in l.granted)
    ensures GrantHead(l).granted == WithHolder(l.granted, GrantHead(l).holder)
  {
  }

  /** The history of grants shows in the holder: one more exactly when the holder is new. */
  lemma GrantsShow(l: Lock, e: Event)
    requires Reachable(l)
    ensures Step(l, e).granted == WithHolder(l.granted, Step(l, e).holder)
  {
    ReachableKeeps(l);
    match e
    case Asked(priority) =>
      var r := Request(l.arrivals, priority);
      InsertMembers(l.pending, r);
      var m := l.(pending := Insert(l.pending, r), arrivals := l.arrivals + 1);
      assert m.pending[0] in m.pending && (m.pending[0] in l.pending ==> IsPending(l, m.pending[0].serial));
      GrantHeadShows(m);
    case Unlocked(serial) =>
      assert l.pending != [] ==> l.pending[0] in l.pending && IsPending(l, l.pending[0].serial);
      GrantHeadShows(l.(holder := None));
      GrantHeadShows(l);
    case _ =>
      assert l.pending != [] ==> l.pending[0] in l.pending && IsPending(l, l.pending[0].serial);
      GrantHeadShows(l);
  }

  /** Whatever is granted by any step of any run precedes every request still pending. */
  lemma GrantIsFirst(events: seq<Event>, e: Event)
    ensures Run(events + [e]) == Step(Run(events), e)
    ensures var l, m := Run(events), Run(events + [e]);
      m.granted == l.granted
      || exists g :: m.holder == Some(g) && m.granted == l.granted + [g.serial]
                     && (g in l.pending || (e.Asked? && g == Request(l.arrivals, e.priority)))
                     && forall r :: r in m.pending ==> Before(g, r)
  {
    assert (events + [e])[..|events|] == events;
    RunKeeps(events);
    var l := Run(events);
    var m := Step(l, e);
    if m.granted != l.granted {
      var q := if e.Asked? then Insert(l.pending, Request(l.arrivals, e.priority)) else l.pending;
      if e.Asked? {
        InsertSorted(l.pending, Request(l.arrivals, e.priority));
        InsertMembers(l.pending, Request(l.arrivals, e.priority));
      }
      HeadFirst(q);
      assert q[0] in q;
    }
  }

  // What the events alone say of the requests

  /** The priorities asked for, in order of arrival. */
  ghost function Asks(events: seq<Event>): seq<int> {
    if events == [] then []
    else
      var last := |events| - 1;
      Asks(events[..last]) + if events[last].Asked? then [events[last].priority] else []
  }

  /** The request stands for the call with its arrival number, at the priority asked for. */
  ghost predicate AsAsked(r: Request, asks: seq<int>) {
    r.serial < |asks| && r.priority == asks[r.serial]
  }

  ghost predicate AllAsAsked(l: Lock, asks: seq<int>) {
    && l.arrivals == |asks|
    && (forall r :: r in l.pending ==> AsAsked(r, asks))
    && (l.holder.Some? ==> AsAsked(l.holder.value, asks))
  }

  lemma GrantHeadAsAsked(l: Lock, asks: seq<int>)
    requires AllAsAsked(l, asks)
    ensures AllAsAsked(GrantHead(l), asks)
  {
    if l.pending != [] { assert l.pending[0] in l.pending; }
  }

  lemma StepAsAsked(l: Lock, e: Event, asks: seq<int>)
    requires AllAsAsked(l, asks)
    ensures AllAsAsked(Step(l, e), asks + if e.Asked? then [e.priority] else [])
  {
    match e
    case Asked(priority) =>
      var r := Request(l.arrivals, priority);
      InsertMembers(l.pending, r);
      GrantHeadAsAsked(l.(pending := Insert(l.pending, r), arrivals := l.arrivals + 1), asks + [priority]);
    case TimedOut(serial) => RemoveMembers(l.pending, serial);
    case Unlocked(serial) => GrantHeadAsAsked(l.(holder := None), asks);
    case _ =>
  }

  /** In every run each pending request and the holder has the priority that its call asked for. */
  lemma {:induction false} PrioritiesAsAsked(events: seq<Event>)
    ensures AllAsAsked(Run(events), Asks(events))
  {
    if events != [] {
      PrioritiesAsAsked(events[..|events| - 1]);
      StepAsAsked(Run(events[..|events| - 1]), events[|events| - 1], Asks(events[..|events| - 1]));
    }
  }

  /** A call still waits: it has asked, and was neither granted nor has it expired. */
  ghost predicate Waits(events: seq<Event>, serial: nat) {
    serial < |Asks(events)| && serial !in Run(events).granted && serial !in Run(events).expired
  }

  /** Of two calls, the one asking for a higher priority is first; of equal ones, the earlier. */
  ghost predicate First(asks: seq<int>, a: nat, b: nat)
    requires a < |asks| && b < |asks|
  {
    asks[a] > asks[b] || (asks[a] == asks[b] && a < b)
  }

  /** Each grant goes to a call that comes first, by the priorities asked for, of all that still wait. */
  lemma GrantsFirstAsked(events: seq<Event>, e: Event)
    ensures var before, after, asks := Run(events).granted, Run(events + [e]).granted, Asks(events + [e]);
      after == before || exists g: nat :: g < |asks| && after == before + [g]
                                         && forall s: nat :: Waits(events + [e], s) ==> First(asks, g, s)
  {
    GrantIsFirst(events, e);
    PrioritiesAsAsked(events + [e]);
    RunKeeps(events + [e]);
    var l, m, asks := Run(events), Run(events + [e]), Asks(events + [e]);
    if m.granted != l.granted {
      var g :| m.holder == Some(g) && m.granted == l.granted + [g.serial] && forall r :: r in m.pending ==> Before(g, r);
      forall s: nat | Waits(events + [e], s) ensures First(asks, g.serial, s) {
        var r :| r in m.pending && r.serial == s;
        assert Before(g, r) && AsAsked(r, asks);
      }
    }
  }

  /** A call that still waits expires with its timer. */
  lemma TimerExpires(events: seq<Event>, serial: nat)
    requires Waits(events, serial)
    ensures serial in Run(events + [TimedOut(serial)]).expired
  {
    PrioritiesAsAsked(events);
    RunKeeps(events);
    RunAppend(events, TimedOut(serial));
  }

  /** The holder's own unlock takes the lock from it, and leaves it free only if no one waits. */
  lemma UnlockReleases(events: seq<Event>, serial: nat)
    requires Holds(Run(events), serial)
    ensures var after := events + [Unlocked(serial)];
      !Holds(Run(after), serial) && (Run(after).holder.None? ==> forall s: nat :: !Waits(after, s))
  {
    var after := events + [Unlocked(serial)];
    RunAppend(events, Unlocked(serial));
    RunKeeps(events);
    RunKeeps(after);
    PrioritiesAsAsked(after);
    var l := Run(events);
    assert l.pending != [] ==> l.pending[0] in l.pending && IsPending(l, l.pending[0].serial);
    assert serial in l.granted;
  }

  /** Only its own timer makes a call expire. */
  lemma {:induction false} ExpiredTimedOut(events: seq<Event>)
    ensures forall s :: s in Run(events).expired ==> TimedOut(s) in events
  {
    if events != [] {
      ExpiredTimedOut(events[..|events| - 1]);
      assert forall x :: x in events[..|events| - 1] ==> x in events;
      assert events[|events| - 1] in events;
    }
  }

  // Unlocks that come too late

  /** An unlock by a request that has given the lock back, while another holds it. */
  ghost predicate IsStale(l: Lock, e: Event) {
    e.Unlocked? && e.serial in l.granted && l.holder.Some? && !Holds(l, e.serial)
  }

  /** No event of the run is one. */
  ghost predicate NoneStale(events: seq<Event>) {
    NoneStaleBefore(events, |events|)
  }

  ghost predicate NoneStaleBefore(events: seq<Event>, n: nat)
    requires n <= |events|
  {
    forall k :: 0 <= k < n ==> !StaleAt(events, k)
  }

  ghost predicate StaleAt(events: seq<Event>, n: nat)
    requires n < |events|
  {
    IsStale(Run(events[..n]), events[n])
  }

  function HolderUnlocks(l: Lock): Event
    requires l.holder.Some?
  {
    Unlocked(l.holder.value.serial)
  }

  /** What an event may amount to when ids are used again. */
  ghost predicate Amounts(l: Lock, e: Event, effect: Event) {
    effect == e || (IsStale(l, e) && effect == HolderUnlocks(l))
  }

  ghost predicate Follows(events: seq<Event>, done: seq<Event>) {
    |done| == |events| && forall n :: 0 <= n < |events| ==> Amounts(Run(done[..n]), events[n], done[n])
  }

  /** What an event amounts to when there is a single id. */
  ghost function OneIdEffect(l: Lock, e: Event): Event {
    if IsStale(l, e) then HolderUnlocks(l) else e
  }

  ghost function WithOneId(events: seq<Event>): (done: seq<Event>)
    ensures |done| == |events|
  {
    if events == [] then []
    else
      var done := WithOneId(events[..|events| - 1]);
      done + [OneIdEffect(Run(done), events[|events| - 1])]
  }

  /** What the first `n` events amounted to. */
  ghost predicate Took(events: seq<Event>, n: nat, done: seq<Event>, oneId: bool)
    requires n <= |events|
  {
    Follows(events[..n], done) && (oneId ==> done == WithOneId(events[..n]))
  }

  lemma NextRun(done: seq<Event>, effect: Event)
    ensures Run(done + [effect]) == Step(Run(done), effect)
    ensures Run(done + [effect]).granted == WithHolder(Run(done).granted, Run(done + [effect]).holder)
  {
    RunAppend(done, effect);
    ReachedByRun(done);
    GrantsShow(Run(done), effect);
  }

  lemma RunAppend(events: seq<Event>, e: Event)
    ensures Run(events + [e]) == Step(Run(events), e)
  {
    assert (events + [e])[..|events|] == events;
  }

  lemma Extend(events: seq<Event>, n: nat, done: seq<Event>, effect: Event, oneId: bool)
    requires n < |events| && Took(events, n, done, oneId) && Amounts(Run(done), events[n], effect)
    requires oneId ==> effect == OneIdEffect(Run(done), events[n])
    ensures Took(events, n + 1, done + [effect], oneId)
  {
    var more := done + [effect];
    assert events[..n + 1][..n] == events[..n] && more[..n] == done;
    forall k | 0 <= k < n + 1 ensures Amounts(Run(more[..k]), events[..n + 1][k], more[k]) {
      if k < n {
        assert more[..k] == done[..k];
        assert Amounts(Run(done[..k]), events[..n][k], done[k]);
      }
    }
  }

  lemma {:induction false} OneIdFollows(events: seq<Event>)
    ensures Follows(events, WithOneId(events))
  {
    if events != [] {
      var n := |events| - 1;
      OneIdFollows(events[..n]);
      Extend(events, n, WithOneId(events[..n]), OneIdEffect(Run(WithOneId(events[..n])), events[n]), true);
      assert events[..n + 1] == events;
    }
  }

  lemma FollowsAt(events: seq<Event>, done: seq<Event>, n: nat)
    requires Follows(events, done) && n < |events|
    ensures done[..n] == events[..n] && !StaleAt(events, n) ==> done[..n + 1] == events[..n + 1]
  {
    assert Amounts(Run(done[..n]), events[n], done[n]);
    if done[..n] == events[..n] && !StaleAt(events, n) {
      assert done[..n + 1] == done[..n] + [done[n]] && events[..n + 1] == events[..n] + [events[n]];
    }
  }

  lemma {:induction false} FollowsUpTo(events: seq<Event>, done: seq<Event>, n: nat)
    requires Follows(events, done) && n <= |events| && NoneStaleBefore(events, n)
    ensures done[..n] == events[..n]
  {
    if n > 0 {
      FollowsUpTo(events, done, n - 1);
      FollowsAt(events, done, n - 1);
    }
  }

  lemma FollowsWithoutStale(events: seq<Event>, done: seq<Event>)
    requires Follows(events, done)
    ensures NoneStale(events) ==> done == events
  {
    if NoneStale(events) { FollowsUpTo(events, done, |events|); }
    assert done[..|done|] == done && events[..|events|] == events;
  }

  /** Taking the lock from its holder is not what the stable lock does. */
  lemma StaleDiffers(l: Lock, e: Event)
    requires Reachable(l) && IsStale(l, e)
    ensures Step(l, HolderUnlocks(l)) != Step(l, e)
  {
    ReachableKeeps(l);
    assert l.pending != [] ==> l.pending[0] in l.pending && IsPending(l, l.pending[0].serial);
    assert l.holder.value.serial in l.granted;
  }

  /** After each event the lock is as if every event had taken its own effect. */
  ghost predicate Agrees(events: seq<Event>, done: seq<Event>) {
    |done| == |events| && forall n :: 0 <= n <= |events| ==> Run(done[..n]) == Run(events[..n])
  }

  lemma {:induction false} FirstStale(events: seq<Event>, n: nat) returns (first: nat)
    requires n < |events| && StaleAt(events, n)
    ensures first < |events| && StaleAt(events, first) && NoneStaleBefore(events, first)
  {
    if k :| 0 <= k < n && StaleAt(events, k) { first := FirstStale(events, k); } else { first := n; }
  }

  /**
   Whatever the number of ids, the lock agrees with the stable lock after every event, exactly if no
   event is an unlock by a request that has given the lock back while another holds it. With a single
   id it then and only then agrees.
   */
  lemma AgreesExactly(events: seq<Event>)
    ensures NoneStale(events) <==> forall done :: Follows(events, done) ==> Agrees(events, done)
    ensures NoneStale(events) <==> Agrees(events, WithOneId(events))
  {
    OneIdFollows(events);
    if NoneStale(events) {
      forall done | Follows(events, done) ensures Agrees(events, done) { FollowsWithoutStale(events, done); }
    } else {
      var some :| 0 <= some < |events| && StaleAt(events, some);
      StaleDisagrees(events, some);
    }
  }

  lemma RunOn(events: seq<Event>, n: nat)
    requires n < |events|
    ensures Run(events[..n + 1]) == Step(Run(events[..n]), events[n])
  {
    assert events[..n + 1][..n] == events[..n];
  }

  lemma StaleDisagrees(events: seq<Event>, some: nat)
    requires some < |events| && StaleAt(events, some)
    ensures !Agrees(events, WithOneId(events))
  {
    var n := FirstStale(events, some);
    var done := WithOneId(events);
    OneIdFollows(events);
    FollowsUpTo(events, done, n);
    OneIdAt(events, n);
    ReachedByRun(events[..n]);
    StaleDiffers(Run(events[..n]), events[n]);
    RunOn(events, n);
    RunOn(done, n);
  }

  lemma ReachedByRun(events: seq<Event>)
    ensures Reachable(Run(events))
  {
  }

  lemma {:induction false} OneIdAt(events: seq<Event>, n: nat)
    requires n < |events|
    ensures var done := WithOneId(events); done[n] == OneIdEffect(Run(done[..n]), events[n])
  {
    var last := |events| - 1;
    var before := WithOneId(events[..last]);
    if n < last {
      OneIdAt(events[..last], n);
      assert WithOneId(events)[..n] == before[..n];
    } else {
      assert WithOneId(events)[..n] == before;
    }
  }

  /** Three requests ask, and the first one unlocks twice. */
  const REPEATED_UNLOCK: seq<Event> := [Asked(0), Asked(0), Asked(0), Unlocked(0), Unlocked(0)]

  const AFTER_THREE := Lock(Some(Request(0, 0)), [Request(1, 0), Request(2, 0)], 3, [0], {})

  const AFTER_FOUR := Lock(Some(Request(1, 0)), [Request(2, 0)], 3, [0, 1], {})

  lemma ThreeAsk()
    ensures Run(REPEATED_UNLOCK[..0]) == FREE
    ensures Run(REPEATED_UNLOCK[..1]) == Lock(Some(Request(0, 0)), [], 1, [0], {})
    ensures Run(REPEATED_UNLOCK[..2]) == Lock(Some(Request(0, 0)), [Request(1, 0)], 2, [0], {})
    ensures Run(REPEATED_UNLOCK[..3]) == AFTER_THREE
  {
    RunOn(REPEATED_UNLOCK, 0);
    RunOn(REPEATED_UNLOCK, 1);
    RunOn(REPEATED_UNLOCK, 2);
  }

  lemma RepeatedUnlockIsStale()
    ensures Run(REPEATED_UNLOCK).granted == [0, 1]
    ensures Run(WithOneId(REPEATED_UNLOCK)).granted == [0, 1, 2]
  {
    var events, done := REPEATED_UNLOCK, WithOneId(REPEATED_UNLOCK);
    ThreeAsk();
    RunOn(events, 3);
    assert Run(events[..4]) == AFTER_FOUR;
    RunOn(events, 4);
    OneIdFollows(events);
    FollowsUpTo(events, done, 4);
    OneIdAt(events, 4);
    RunOn(done, 4);
    assert events[..5] == events && done[..5] == done;
    assert IsStale(AFTER_FOUR, events[4]);
  }

  /** Stale unlocks do not change who asks for what. */
  lemma {:induction false} FollowsAsks(events: seq<Event>, done: seq<Event>)
    requires Follows(events, done)
    ensures Asks(done) == Asks(events)
    decreases |events|
  {
    if events != [] {
      var last := |events| - 1;
      assert Amounts(Run(done[..last]), events[last], done[last]);
      forall n | 0 <= n < last ensures Amounts(Run(done[..last][..n]), events[..last][n], done[..last][n]) {
        assert done[..last][..n] == done[..n];
        assert Amounts(Run(done[..n]), events[n], done[n]);
      }
      FollowsAsks(events[..last], done[..last]);
    }
  }
}
