/**
 The deferred loading indicator of client/src/shared/useDeferredLoading.ts with fixed options. Time
 is real; a timer fires at its deadline or later, timers fire in the order of their deadlines, and
 of two timers with one deadline the one set first fires first.
 */
module DeferredLoading {
  import opened Options

  datatype Timer = Show(deadline: real) | MinDuration(deadline: real)

  /**
   `since`: when `isLoading` last changed; `visibleSince`: when the indicator last appeared.
   `showTimer` and `minTimer` name the timers that would be cleared.
   */
  datatype State = State(
    now: real, mounted: bool, isLoading: bool, since: real,
    visible: bool, visibleSince: real, elapsed: bool, pendingHide: bool,
    timers: map<nat, Timer>, nextId: nat, showTimer: Option<nat>, minTimer: Option<nat>)

  datatype Timing = Timing(delay: real, minDuration: real)

  datatype Event = Advance(to: real) | Load(isLoading: bool) | Fire(id: nat) | Unmount

  const INITIAL := State(0.0, true, false, 0.0, false, 0.0, true, false, map[], 0, None, None)

  function Without(timers: map<nat, Timer>, id: Option<nat>): map<nat, Timer> {
    if id.None? then timers else timers - {id.value}
  }

  function Loaded(s: State, isLoading: bool, o: Timing): State {
    if isLoading then
      s.(isLoading := true, since := s.now, pendingHide := false,
         timers := s.timers[s.nextId := Show(s.now + o.delay)], showTimer := Some(s.nextId), nextId := s.nextId + 1)
    else
      var t := s.(isLoading := false, since := s.now, timers := Without(s.timers, s.showTimer), showTimer := None);
      if !s.visible then t
      else if s.elapsed then t.(visible := false)
      else t.(pendingHide := true)
  }

  function Shown(s: State, id: nat, o: Timing): State {
    s.(elapsed := false, visible := true, visibleSince := if s.visible then s.visibleSince else s.now,
       timers := (s.timers - {id})[s.nextId := MinDuration(s.now + o.minDuration)], minTimer := Some(s.nextId), nextId := s.nextId + 1)
  }

  function Held(s: State, id: nat): State {
    var t := s.(timers := s.timers - {id}, elapsed := true, minTimer := None);
    if s.pendingHide then t.(pendingHide := false, visible := false) else t
  }

  function Unmounted(s: State): State {
    s.(mounted := false, timers := Without(Without(s.timers, s.showTimer), s.minTimer))
  }

  /** The timer is due, and no other comes before it. */
  predicate Next(s: State, id: nat) {
    && id in s.timers && s.timers[id].deadline <= s.now
    && forall other :: other in s.timers ==>
         s.timers[id].deadline < s.timers[other].deadline || (s.timers[id].deadline == s.timers[other].deadline && id <= other)
  }

  predicate Enabled(s: State, e: Event) {
    match e
    case Advance(to) => s.now <= to
    case Load(isLoading) => s.mounted && isLoading != s.isLoading
    case Fire(id) => Next(s, id)
    case Unmount => s.mounted
  }

  function Step(s: State, e: Event, o: Timing): State
    requires Enabled(s, e)
  {
    match e
    case Advance(to) => s.(now := to)
    case Load(isLoading) => Loaded(s, isLoading, o)
    case Fire(id) => if s.timers[id].Show? then Shown(s, id, o) else Held(s, id)
    case Unmount => Unmounted(s)
  }

  /** The state after the events, if each could happen in its turn. */
  function Run(events: seq<Event>, o: Timing): Option<State> {
    if events == [] then Some(INITIAL)
    else
      var before, e := Run(events[..|events| - 1], o), events[|events| - 1];
      if before.None? || !Enabled(before.value, e) then None else Some(Step(before.value, e, o))
  }

  ghost predicate Sensible(o: Timing) { o.delay >= 0.0 && o.minDuration >= 0.0 }

  /** The last moment at which the indicator can have been shown. */
  function LastChance(s: State): real { if s.isLoading then s.now else s.since }

  // What every run keeps

  ghost predicate Valid(s: State, o: Timing) {
    && s.since <= s.now && s.visibleSince <= s.now
    && (forall id :: id in s.timers ==> id < s.nextId)
    && (s.showTimer.Some? ==> s.showTimer.value < s.nextId && s.showTimer != s.minTimer)
    && (s.minTimer.Some? ==> s.minTimer.value < s.nextId)
    && (s.mounted ==>
          && (forall id :: id in s.timers && s.timers[id].Show? ==>
                s.showTimer == Some(id) && s.isLoading && s.timers[id].deadline == s.since + o.delay)
          && (!s.elapsed ==>
                && s.visible && s.minTimer.Some? && s.minTimer.value in s.timers && s.timers[s.minTimer.value].MinDuration?
                && s.timers[s.minTimer.value].deadline <= LastChance(s) + o.minDuration)
          && (s.pendingHide ==> !s.isLoading && s.visible && !s.elapsed)
          && (s.visible && !s.isLoading ==> s.pendingHide))
  }

  lemma LoadedKeeps(s: State, isLoading: bool, o: Timing)
    requires Sensible(o) && Valid(s, o) && s.mounted && isLoading != s.isLoading
    ensures Valid(Loaded(s, isLoading, o), o)
  {
  }

  lemma ShownKeeps(s: State, id: nat, o: Timing)
    requires Sensible(o) && Valid(s, o) && Next(s, id) && s.timers[id].Show?
    ensures Valid(Shown(s, id, o), o)
  {
  }

  lemma HeldKeeps(s: State, id: nat, o: Timing)
    requires Sensible(o) && Valid(s, o) && Next(s, id) && s.timers[id].MinDuration?
    ensures Valid(Held(s, id), o)
  {
  }

  lemma StepKeeps(s: State, e: Event, o: Timing)
    requires Sensible(o) && Valid(s, o) && Enabled(s, e)
    ensures Valid(Step(s, e, o), o)
  {
    match e
    case Load(isLoading) => LoadedKeeps(s, isLoading, o);
    case Fire(id) => if s.timers[id].Show? { ShownKeeps(s, id, o); } else { HeldKeeps(s, id, o); }
    case _ =>
  }

  lemma {:induction false} RunKeeps(events: seq<Event>, o: Timing)
    requires Sensible(o) && Run(events, o).Some?
    ensures Valid(Run(events, o).value, o)
  {
    if events != [] {
      RunKeeps(events[..|events| - 1], o);
      StepKeeps(Run(events[..|events| - 1], o).value, events[|events| - 1], o);
    }
  }

  /** In every run the indicator appears only after loading has gone on for the whole delay. */
  lemma AppearsAfterDelay(events: seq<Event>, e: Event, o: Timing)
    requires Sensible(o) && Run(events, o).Some? && Enabled(Run(events, o).value, e)
    ensures var s := Run(events, o).value;
      s.mounted && !s.visible && Step(s, e, o).visible ==> s.isLoading && s.now - s.since >= o.delay
  {
    RunKeeps(events, o);
  }

  ghost predicate NoneLate(s: State) {
    forall id :: id in s.timers ==> s.now <= s.timers[id].deadline
  }

  /** In every run, while no timer is late, the indicator is off once loading has been over for the minimum duration. */
  lemma DisappearsInTime(events: seq<Event>, o: Timing)
    requires Sensible(o) && Run(events, o).Some?
    ensures var s := Run(events, o).value;
      s.mounted && !s.isLoading && NoneLate(s) && s.now - s.since > o.minDuration ==> !s.visible
  {
    RunKeeps(events, o);
  }

  /** While it loads unseen, the timer that will show it is running. */
  ghost predicate Due(s: State, o: Timing) {
    s.mounted && s.isLoading && !s.visible ==> exists id :: id in s.timers && s.timers[id] == Show(s.since + o.delay)
  }

  lemma StepKeepsDue(s: State, e: Event, o: Timing)
    requires Valid(s, o) && Due(s, o) && Enabled(s, e)
    ensures Due(Step(s, e, o), o)
  {
    var t := Step(s, e, o);
    if t.mounted && t.isLoading && !t.visible {
      if e.Load? {
        assert t.timers[s.nextId] == Show(t.since + o.delay);
      } else {
        var id :| id in s.timers && s.timers[id] == Show(s.since + o.delay);
        assert id in t.timers && t.timers[id] == s.timers[id];
      }
    }
  }

  lemma {:induction false} RunKeepsDue(events: seq<Event>, o: Timing)
    requires Sensible(o) && Run(events, o).Some?
    ensures Due(Run(events, o).value, o)
  {
    if events != [] {
      RunKeeps(events[..|events| - 1], o);
      RunKeepsDue(events[..|events| - 1], o);
      StepKeepsDue(Run(events[..|events| - 1], o).value, events[|events| - 1], o);
    }
  }

  /** In every run, while no timer is late, the indicator is on once loading has gone on for longer than the delay. */
  lemma AppearsInTime(events: seq<Event>, o: Timing)
    requires Sensible(o) && Run(events, o).Some?
    ensures var s := Run(events, o).value;
      s.mounted && s.isLoading && NoneLate(s) && s.now - s.since > o.delay ==> s.visible
  {
    RunKeepsDue(events, o);
  }

  // What every run keeps besides when the delay is no shorter than the minimum duration

  ghost predicate Strong(s: State, o: Timing) {
    s.mounted ==>
      && (forall id :: id in s.timers && s.timers[id].MinDuration? ==>
            s.minTimer == Some(id) && !s.elapsed && s.visibleSince + o.minDuration <= s.timers[id].deadline)
      && (forall show, min :: show in s.timers && min in s.timers && s.timers[show].Show? && s.timers[min].MinDuration? ==>
            s.timers[min].deadline <= s.timers[show].deadline && min < show)
      && (s.elapsed && s.visible ==> s.visibleSince + o.minDuration <= s.now)
  }

  lemma LoadedKeepsStrong(s: State, isLoading: bool, o: Timing)
    requires Sensible(o) && o.delay >= o.minDuration && Valid(s, o) && Strong(s, o) && s.mounted && isLoading != s.isLoading
    ensures Strong(Loaded(s, isLoading, o), o)
  {
  }

  lemma ShownKeepsStrong(s: State, id: nat, o: Timing)
    requires Sensible(o) && o.delay >= o.minDuration && Valid(s, o) && Strong(s, o) && Next(s, id) && s.timers[id].Show?
    ensures Strong(Shown(s, id, o), o)
  {
  }

  lemma HeldKeepsStrong(s: State, id: nat, o: Timing)
    requires Sensible(o) && o.delay >= o.minDuration && Valid(s, o) && Strong(s, o) && Next(s, id) && s.timers[id].MinDuration?
    ensures Strong(Held(s, id), o)
  {
  }

  lemma StepKeepsStrong(s: State, e: Event, o: Timing)
    requires Sensible(o) && o.delay >= o.minDuration && Valid(s, o) && Strong(s, o) && Enabled(s, e)
    ensures Strong(Step(s, e, o), o)
  {
    match e
    case Load(isLoading) => LoadedKeepsStrong(s, isLoading, o);
    case Fire(id) => if s.timers[id].Show? { ShownKeepsStrong(s, id, o); } else { HeldKeepsStrong(s, id, o); }
    case _ =>
  }

  lemma {:induction false} RunKeepsStrong(events: seq<Event>, o: Timing)
    requires Sensible(o) && o.delay >= o.minDuration && Run(events, o).Some?
    ensures Strong(Run(events, o).value, o)
  {
    if events != [] {
      RunKeeps(events[..|events| - 1], o);
      RunKeepsStrong(events[..|events| - 1], o);
      StepKeepsStrong(Run(events[..|events| - 1], o).value, events[|events| - 1], o);
    }
  }

  /** The indicator disappears, other than by being unmounted, and was not visible long enough. */
  ghost predicate HidesEarly(s: State, e: Event, o: Timing)
    requires Enabled(s, e)
  {
    s.mounted && s.visible && !Step(s, e, o).visible && s.now - s.visibleSince < o.minDuration
  }

  ghost predicate Flickers(events: seq<Event>, e: Event, o: Timing) {
    var s := Run(events, o);
    s.Some? && Enabled(s.value, e) && HidesEarly(s.value, e, o)
  }

  /** Unmounting leaves no timer running, in every run, if the delay is no shorter. */
  lemma UnmountClears(events: seq<Event>, o: Timing)
    requires Sensible(o) && o.delay >= o.minDuration && Run(events, o).Some? && Run(events, o).value.mounted
    ensures Step(Run(events, o).value, Unmount, o).timers == map[]
  {
    RunKeeps(events, o);
    RunKeepsStrong(events, o);
    var s := Run(events, o).value;
    forall id | id in s.timers ensures s.showTimer == Some(id) || s.minTimer == Some(id) {}
  }

  lemma NeverFlickers(events: seq<Event>, e: Event, o: Timing)
    requires Sensible(o) && o.delay >= o.minDuration
    ensures !Flickers(events, e, o)
  {
    if Run(events, o).Some? {
      RunKeeps(events, o);
      RunKeepsStrong(events, o);
    }
  }

  // A run in which the timer of an earlier interval cuts a later one short

  /** One more event, which leaves the given timers. */
  lemma Then(before: seq<Event>, s: State, e: Event, timers: map<nat, Timer>, o: Timing) returns (events: seq<Event>, next: State)
    requires Run(before, o) == Some(s) && Enabled(s, e) && Step(s, e, o).timers == timers
    ensures Run(events, o) == Some(next) && next == Step(s, e, o).(timers := timers)
  {
    events, next := before + [e], Step(s, e, o);
    assert events[..|events| - 1] == before;
  }

  /** Shown at `delay`; loading ends at once, and the hide is put off. */
  lemma ShownOnce(o: Timing) returns (events: seq<Event>, s: State)
    requires Sensible(o)
    ensures Run(events, o) == Some(s)
    ensures s == State(o.delay, true, false, o.delay, true, o.delay, false, true, map[1 := MinDuration(o.delay + o.minDuration)],
                       2, None, Some(1))
  {
    var first := map[1 := MinDuration(o.delay + o.minDuration)];
    events, s := Then([], INITIAL, Load(true), map[0 := Show(o.delay)], o);
    events, s := Then(events, s, Advance(o.delay), s.timers, o);
    events, s := Then(events, s, Fire(0), first, o);
    events, s := Then(events, s, Load(false), first, o);
  }

  /** First shown at `delay`, loading again so that it is shown again `gap` before the first timer is due. */
  lemma ShownTwice(o: Timing, gap: real) returns (events: seq<Event>, s: State)
    requires Sensible(o) && gap > 0.0 && o.delay + gap <= o.minDuration
    ensures Run(events, o) == Some(s)
    ensures s == State(o.delay + o.minDuration - gap, true, true, o.minDuration - gap, true, o.delay, false, false,
                       map[1 := MinDuration(o.delay + o.minDuration), 3 := MinDuration(o.delay + o.minDuration - gap + o.minDuration)],
                       4, Some(2), Some(3))
  {
    var d, m := o.delay, o.minDuration;
    var first := map[1 := MinDuration(d + m)];
    events, s := ShownOnce(o);
    events, s := Then(events, s, Advance(m - gap), first, o);
    events, s := Then(events, s, Load(true), first[2 := Show(m - gap + d)], o);
    events, s := Then(events, s, Advance(d + m - gap), s.timers, o);
    events, s := Then(events, s, Fire(2), first[3 := MinDuration(d + m - gap + m)], o);
  }

  /** Hidden after the first timer, while the second timer is still running. */
  lemma HiddenBetween(o: Timing, gap: real) returns (events: seq<Event>, s: State)
    requires Sensible(o) && gap > 0.0 && o.delay + gap < o.minDuration
    ensures Run(events, o) == Some(s)
    ensures var d, m := o.delay, o.minDuration;
      s == State(d + m, true, false, d + m, false, d, true, false, map[3 := MinDuration(d + m - gap + m)], 4, None, None)
  {
    var d, m := o.delay, o.minDuration;
    var second := map[3 := MinDuration(d + m - gap + m)];
    events, s := ShownTwice(o, gap);
    events, s := Then(events, s, Advance(d + m), s.timers, o);
    events, s := Then(events, s, Fire(1), second, o);
    events, s := Then(events, s, Load(false), second, o);
  }

  /** Shown anew, and cut short by the second timer. */
  lemma CutShort(o: Timing, gap: real) returns (events: seq<Event>)
    requires Sensible(o) && gap > 0.0 && o.delay + gap < o.minDuration
    ensures Flickers(events, Load(false), o)
  {
    var d, m := o.delay, o.minDuration;
    var second := map[3 := MinDuration(d + m - gap + m)];
    var s;
    events, s := HiddenBetween(o, gap);
    events, s := Then(events, s, Load(true), second[4 := Show(d + m + d)], o);
    events, s := Then(events, s, Advance(d + m + d), s.timers, o);
    events, s := Then(events, s, Fire(4), second[5 := MinDuration(d + m + d + m)], o);
    events, s := Then(events, s, Advance(d + m - gap + m), s.timers, o);
    events, s := Then(events, s, Fire(3), map[5 := MinDuration(d + m + d + m)], o);
  }

  /** Every visible interval lasts the minimum duration, in every run, exactly if the delay is no shorter. */
  lemma MinimumHeldExactly(o: Timing)
    requires Sensible(o)
    ensures o.delay >= o.minDuration <==> forall events, e :: !Flickers(events, e, o)
  {
    if o.delay >= o.minDuration {
      forall events, e ensures !Flickers(events, e, o) { NeverFlickers(events, e, o); }
    } else {
      var events := CutShort(o, (o.minDuration - o.delay) / 2.0);
    }
  }

  // The hook as written: refs, the state, and the callbacks that update them

  class Hook {
    const delayMs: real
    const minDurationMs: real
    var now: real
    var mounted: bool
    var isLoading: bool
    var isVisible: bool
    var isMinDurationElapsedRef: bool
    var hasPendingHideRef: bool
    var minDurationTimerRef: Option<nat>
    var showTimer: Option<nat>
    var timers: map<nat, Timer>
    var nextId: nat
    ghost var since: real
    ghost var visibleSince: real

    ghost function View(): State
      reads this
    {
      State(now, mounted, isLoading, since, isVisible, visibleSince, isMinDurationElapsedRef, hasPendingHideRef,
            timers, nextId, showTimer, minDurationTimerRef)
    }

    constructor (delayMs: real, minDurationMs: real)
      ensures View() == INITIAL && this.delayMs == delayMs && this.minDurationMs == minDurationMs
    {
      this.delayMs, this.minDurationMs := delayMs, minDurationMs;
      now, mounted, isLoading, isVisible := 0.0, true, false, false;
      isMinDurationElapsedRef, hasPendingHideRef, minDurationTimerRef, showTimer := true, false, None, None;
      timers, nextId, since, visibleSince := map[], 0, 0.0, 0.0;
    }

    method SetTimeout(timer: Timer) returns (id: nat)
      modifies this`timers, this`nextId
      ensures id == old(nextId) && nextId == id + 1 && timers == old(timers)[id := timer]
    {
      id := nextId;
      timers, nextId := timers[id := timer], nextId + 1;
    }

    method ClearTimeout(id: Option<nat>)
      modifies this`timers
      ensures timers == Without(old(timers), id)
    {
      if id.Some? { timers := timers - {id.value}; }
    }

    /** The effect keyed by `isLoading`, after the cleanup of the run before. */
    method SetLoading(loading: bool)
      requires mounted && loading != isLoading
      modifies this
      ensures View() == Step(old(View()), Load(loading), Timing(delayMs, minDurationMs))
    {
      isLoading, since := loading, now;
      if loading {
        hasPendingHideRef := false;
        var id := SetTimeout(Show(now + delayMs));
        showTimer := Some(id);
        return;
      }
      ClearTimeout(showTimer);
      showTimer := None;
      if !isVisible { return; }
      if isMinDurationElapsedRef {
        isVisible := false;
        return;
      }
      hasPendingHideRef := true;
    }

    method OnTimer(id: nat)
      requires Next(View(), id)
      modifies this
      ensures View() == Step(old(View()), Fire(id), Timing(delayMs, minDurationMs))
    {
      var timer := timers[id];
      timers := timers - {id};
      if timer.Show? { OnShowTimer(); } else { OnMinDurationTimer(); }
    }

    method OnShowTimer()
      modifies this`isMinDurationElapsedRef, this`isVisible, this`visibleSince, this`minDurationTimerRef, this`timers, this`nextId
      ensures !isMinDurationElapsedRef && isVisible && visibleSince == (if old(isVisible) then old(visibleSince) else now)
      ensures timers == old(timers)[old(nextId) := MinDuration(now + minDurationMs)] && nextId == old(nextId) + 1
      ensures minDurationTimerRef == Some(old(nextId))
    {
      isMinDurationElapsedRef := false;
      visibleSince := if isVisible then visibleSince else now;
      isVisible := true;
      var id := SetTimeout(MinDuration(now + minDurationMs));
      minDurationTimerRef := Some(id);
    }

    method OnMinDurationTimer()
      modifies this`isMinDurationElapsedRef, this`isVisible, this`hasPendingHideRef, this`minDurationTimerRef
      ensures isMinDurationElapsedRef && minDurationTimerRef == None && !hasPendingHideRef
      ensures isVisible == (old(isVisible) && !old(hasPendingHideRef))
    {
      isMinDurationElapsedRef := true;
      minDurationTimerRef := None;
      if hasPendingHideRef {
        hasPendingHideRef := false;
        isVisible := false;
      }
    }

    method OnUnmount()
      requires mounted
      modifies this
      ensures View() == Step(old(View()), Unmount, Timing(delayMs, minDurationMs))
    {
      mounted := false;
      ClearTimeout(showTimer);
      ClearTimeout(minDurationTimerRef);
    }

    method Wait(to: real)
      requires now <= to
      modifies this
      ensures View() == Step(old(View()), Advance(to), Timing(delayMs, minDurationMs))
    {
      now := to;
    }
  }
}
