/**
 * The countdown of one rendered timer as an event-driven machine, with the clock
 * replaced by explicit events. This is the specification that the `TimerDesign`
 * class follows; each event is one function from state to state.
 *
 * Events: the mount (first render, then the first effect run), a change of the
 * global run flag (cleanup of the previous effect run, then the effect body), a
 * tick of a live interval, a render (the expiry check), and the unmount (cleanup).
 */
module Countdown {
  import TimersStore

  datatype Option<T> = None | Some(value: T)

  /** The interval period and the size of every decrement, in milliseconds. */
  const TickMs: int := 50

  /**
   * `remaining` is the remaining time in milliseconds; `intervalRef` is the id held
   * by the interval ref; `effectTimer` is the id the latest effect run's cleanup will
   * clear; `live` is the set of interval ids set and not yet cleared (the ones whose
   * callback still fires); `nextId` is the id the next `setInterval` returns (ids are
   * positive, hence truthy); `isRunning` is the run flag the latest effect run saw.
   */
  datatype CountdownState = CountdownState(
    remaining: int,
    intervalRef: Option<nat>,
    effectTimer: Option<nat>,
    live: set<nat>,
    nextId: nat,
    isRunning: bool,
    mounted: bool)

  datatype Event =
    | FlagChange(flag: bool)
    | Tick(id: nat)
    | Render
    | Unmount

  /** A duration in seconds whose value in milliseconds is a whole number. */
  predicate WholeMillis(duration: real) {
    (duration * 1000.0).Floor as real == duration * 1000.0
  }

  /** A duration in seconds, as whole milliseconds. */
  function Millis(duration: real): (ms: int)
    requires WholeMillis(duration)
    ensures ms as real == duration * 1000.0
  {
    (duration * 1000.0).Floor
  }

  /**
   * The eager decrement every effect run applies: it never raises the value, changes
   * it exactly when it is positive, and then overshoots zero by less than one tick.
   */
  function EagerDecrement(prev: int): (r: int)
    ensures r <= prev
    ensures r == prev <==> prev <= 0
    ensures prev > 0 ==> r > -TickMs && prev - r == TickMs
  {
    if prev <= 0 then prev else prev - TickMs
  }

  /** `clearInterval(id)`: a missing id clears nothing. */
  function Cleared(live: set<nat>, id: Option<nat>): set<nat> {
    if id.Some? then live - {id.value} else live
  }

  /** The state right after the first render: nothing scheduled yet. */
  function Initial(durationMs: int, isRunning: bool): (r: CountdownState)
    ensures WellFormed(r) && !Counting(r) && r.mounted
    ensures r.remaining == durationMs && r.isRunning == isRunning
  {
    CountdownState(durationMs, None, None, {}, 1, isRunning, true)
  }

  /**
   * The effect body. When running it sets a fresh interval and records its id in the
   * ref and for its own cleanup; when stopped it clears the interval the ref holds.
   * Either way it then applies the eager decrement.
   */
  function RunEffect(s: CountdownState): (r: CountdownState)
    ensures r.remaining == EagerDecrement(s.remaining)
    ensures r.isRunning == s.isRunning && r.mounted == s.mounted
    ensures WellFormed(s) && s.effectTimer.None? && s.mounted ==>
              WellFormed(r) && (Counting(r) <==> s.isRunning)
  {
    var scheduled :=
      if s.isRunning then
        s.(intervalRef := Some(s.nextId), effectTimer := Some(s.nextId),
           live := s.live + {s.nextId}, nextId := s.nextId + 1)
      else
        s.(live := Cleared(s.live, s.intervalRef), effectTimer := None);
    scheduled.(remaining := EagerDecrement(scheduled.remaining))
  }

  /** The cleanup of the latest effect run: it clears the interval that run set, if any. */
  function Cleanup(s: CountdownState): (r: CountdownState)
    ensures r.remaining == s.remaining && r.isRunning == s.isRunning && r.mounted == s.mounted
    ensures WellFormed(s) ==> WellFormed(r) && !Counting(r)
  {
    s.(live := Cleared(s.live, s.effectTimer), effectTimer := None)
  }

  /** Mounting a timer: initial state from its duration, then the first effect run. */
  function AfterMount(props: TimersStore.Timer, isRunning: bool): (r: CountdownState)
    requires WholeMillis(props.duration)
    ensures WellFormed(r) && r.mounted && r.isRunning == isRunning
    ensures r.remaining == EagerDecrement(Millis(props.duration))
    ensures Counting(r) <==> isRunning
  {
    RunEffect(Initial(Millis(props.duration), isRunning))
  }

  /** The effect depends on the flag alone: the same value does not re-run it. */
  function AfterFlagChange(s: CountdownState, flag: bool): (r: CountdownState)
    ensures r.remaining <= s.remaining
    ensures WellFormed(s) && s.mounted ==> WellFormed(r) && r.isRunning == flag
  {
    if flag == s.isRunning then s else RunEffect(Cleanup(s).(isRunning := flag))
  }

  /** A live interval's callback subtracts one tick, with no lower bound. */
  function AfterTick(s: CountdownState, id: nat): (r: CountdownState)
    ensures s.remaining - TickMs <= r.remaining <= s.remaining
    ensures r.(remaining := s.remaining) == s
    ensures WellFormed(s) ==> WellFormed(r)
  {
    if id in s.live then s.(remaining := s.remaining - TickMs) else s
  }

  /** The render-time expiry check: once time is up it clears the interval the ref holds. */
  function AfterRender(s: CountdownState): (r: CountdownState)
    ensures r.remaining == s.remaining
    ensures s.remaining > 0 ==> r == s
    ensures WellFormed(s) ==> WellFormed(r)
  {
    if s.remaining <= 0 && s.intervalRef.Some? then s.(live := Cleared(s.live, s.intervalRef)) else s
  }

  function AfterUnmount(s: CountdownState): (r: CountdownState)
    ensures r.remaining == s.remaining && !r.mounted
    ensures WellFormed(s) ==> WellFormed(r) && !Counting(r)
  {
    Cleanup(s).(mounted := false)
  }

  /** One event. An unmounted timer is neither rendered nor re-run; its ticks still arrive. */
  function Step(s: CountdownState, e: Event): (r: CountdownState)
    ensures r.remaining <= s.remaining
    ensures WellFormed(s) ==> WellFormed(r)
  {
    match e
    case FlagChange(flag) => if s.mounted then AfterFlagChange(s, flag) else s
    case Tick(id) => AfterTick(s, id)
    case Render => if s.mounted then AfterRender(s) else s
    case Unmount => if s.mounted then AfterUnmount(s) else s
  }

  /**
   * The state after the events of `events`, first one first. Whatever the events, the
   * remaining time never increases and the bookkeeping invariant is kept.
   */
  function Run(s: CountdownState, events: seq<Event>): (r: CountdownState)
    ensures r.remaining <= s.remaining
    ensures WellFormed(s) ==> WellFormed(r)
    decreases |events|
  {
    if events == [] then s else Run(Step(s, events[0]), events[1..])
  }

  /**
   * The bookkeeping every reachable state keeps: only the interval of the latest
   * running effect run can be live, the ref then holds that interval, and every id
   * handed out is positive.
   */
  predicate WellFormed(s: CountdownState) {
    && (forall id :: id in s.live ==> s.effectTimer == Some(id))
    && (s.effectTimer.Some? ==> s.intervalRef == s.effectTimer && s.isRunning && s.mounted)
    && (s.intervalRef.Some? ==> 0 < s.intervalRef.value < s.nextId)
    && 0 < s.nextId
  }

  /** Some interval is live: ticks still arrive and count. */
  predicate Counting(s: CountdownState) {
    s.live != {}
  }

  // ---------------------------------------------------------------------------
  // Mounting

  /**
   * A freshly mounted timer starts at its duration in milliseconds; its first effect
   * run then sets an interval exactly when the flag is on, and applies the eager decrement.
   */
  lemma MountStartsAtDuration(props: TimersStore.Timer, isRunning: bool)
    requires WholeMillis(props.duration)
    ensures Initial(Millis(props.duration), isRunning).remaining as real == props.duration * 1000.0
    ensures var s := AfterMount(props, isRunning);
      && WellFormed(s) && s.mounted && s.isRunning == isRunning
      && s.remaining == EagerDecrement(Millis(props.duration))
      && (Counting(s) <==> isRunning)
  {
  }

  // ---------------------------------------------------------------------------
  // Single events

  /** At most one interval is live at any time: nothing leaks. */
  lemma AtMostOneInterval(s: CountdownState)
    requires WellFormed(s)
    ensures |s.live| <= 1
    ensures Counting(s) ==> s.effectTimer.Some? && s.live == {s.effectTimer.value}
  {
    if s.effectTimer.Some? {
      assert s.live <= {s.effectTimer.value};
      if s.live != {} {
        var id :| id in s.live;
        assert s.live == {s.effectTimer.value};
      }
    } else {
      assert s.live == {};
    }
  }

  /** A tick of the live interval subtracts exactly one tick, however little is left. */
  lemma TickSubtractsWithoutClamp(s: CountdownState, id: nat)
    requires id in s.live
    ensures AfterTick(s, id).remaining == s.remaining - TickMs
    ensures 0 < s.remaining < TickMs ==> AfterTick(s, id).remaining < 0
  {
  }

  /** A concrete case: 30 ms left and a live interval; the next tick leaves -20 ms. */
  lemma TickGoesNegative()
    ensures var s := CountdownState(30, Some(1), Some(1), {1}, 2, true, true);
      WellFormed(s) && AfterTick(s, 1).remaining == -20
  {
  }

  /**
   * Every effect run caused by a flag change, towards running or towards stopped,
   * applies the eager decrement once; the new interval exists exactly when running.
   */
  lemma FlagChangeRunsEffect(s: CountdownState, flag: bool)
    requires WellFormed(s) && flag != s.isRunning
    ensures var r := AfterFlagChange(s, flag);
      && r.remaining == EagerDecrement(s.remaining)
      && r.isRunning == flag
      && r.live == (if flag then {s.nextId} else {})
  {
    AtMostOneInterval(s);
  }

  /** Dispatching the flag value the timer already saw runs no effect: nothing changes. */
  lemma SameFlagChangesNothing(s: CountdownState)
    ensures AfterFlagChange(s, s.isRunning) == s
  {
  }

  /** Stopping leaves no live interval, so ticks change nothing afterwards. */
  lemma StopCancelsTicks(s: CountdownState)
    requires WellFormed(s) && s.isRunning
    ensures var r := AfterFlagChange(s, false);
      !Counting(r) && forall id :: AfterTick(r, id) == r
  {
    FlagChangeRunsEffect(s, false);
  }

  /** A render once time is up cancels the live interval. */
  lemma ExpiredRenderCancels(s: CountdownState)
    requires WellFormed(s) && s.remaining <= 0
    ensures !Counting(AfterRender(s))
    ensures AfterRender(s).remaining == s.remaining
  {
    AtMostOneInterval(s);
  }

  /** Unmounting clears the interval the latest effect run set. */
  lemma UnmountCancels(s: CountdownState)
    requires WellFormed(s)
    ensures !Counting(AfterUnmount(s)) && !AfterUnmount(s).mounted
    ensures AfterUnmount(s).remaining == s.remaining
  {
    AtMostOneInterval(s);
  }

  // ---------------------------------------------------------------------------
  // Sequences of events

  /**
   * With no live interval, and no change to a different flag value, the timer is frozen:
   * ticks, renders, re-dispatches of the same flag and the unmount change no time.
   */
  lemma {:induction false} FrozenWithoutInterval(s: CountdownState, events: seq<Event>)
    requires WellFormed(s) && !Counting(s)
    requires forall i :: 0 <= i < |events| && events[i].FlagChange? ==> events[i].flag == s.isRunning
    ensures Run(s, events).remaining == s.remaining
    ensures !Counting(Run(s, events))
    decreases |events|
  {
    if events != [] {
      var next := Step(s, events[0]);
      assert next.remaining == s.remaining && !Counting(next) && next.isRunning == s.isRunning;
      assert forall i :: 0 <= i < |events[1..]| ==> events[1..][i] == events[i + 1];
      FrozenWithoutInterval(next, events[1..]);
    }
  }

  /**
   * Starting and then stopping, with no tick in between, runs the effect twice and so
   * costs two eager decrements: the remaining time does not come back unchanged.
   */
  lemma StartThenStopCostsTwoTicks(s: CountdownState)
    requires WellFormed(s) && s.mounted && !s.isRunning && s.remaining > TickMs
    ensures Run(s, [FlagChange(true), FlagChange(false)]).remaining == s.remaining - 2 * TickMs
    ensures !Counting(Run(s, [FlagChange(true), FlagChange(false)]))
  {
    var started := AfterFlagChange(s, true);
    FlagChangeRunsEffect(s, true);
    FlagChangeRunsEffect(started, false);
    assert [FlagChange(true), FlagChange(false)][1..] == [FlagChange(false)];
  }

  /** One stop-start cycle with one tick while running, using interval `id`. */
  function RestartCycle(id: nat): seq<Event> {
    [FlagChange(true), Tick(id), Render, FlagChange(false)]
  }

  /** `k` such cycles; the i-th start sets interval `firstId + i`. */
  function RestartCycles(firstId: nat, k: nat): seq<Event>
    decreases k
  {
    if k == 0 then [] else RestartCycle(firstId) + RestartCycles(firstId + 1, k - 1)
  }

  /** Running a concatenation is running its halves one after the other. */
  lemma {:induction false} RunAppend(s: CountdownState, a: seq<Event>, b: seq<Event>)
    ensures Run(s, a + b) == Run(Run(s, a), b)
    decreases |a|
  {
    if a == [] {
      assert a + b == b;
    } else {
      assert (a + b)[0] == a[0];
      assert (a + b)[1..] == a[1..] + b;
      RunAppend(Step(s, a[0]), a[1..], b);
    }
  }

  /**
   * An expired timer is not terminal: each stop-start cycle sets a new interval, and
   * when that interval's first tick comes before the next render, the render only
   * cancels it afterwards, so the cycle costs one more tick. After `k` such cycles the
   * remaining time is `k` ticks further below zero.
   */
  lemma {:induction false} ExpiredTimerTicksOncePerRestart(s: CountdownState, k: nat)
    requires WellFormed(s) && s.mounted && !s.isRunning && s.remaining <= 0
    ensures var r := Run(s, RestartCycles(s.nextId, k));
      && r.remaining == s.remaining - k * TickMs
      && WellFormed(r) && r.mounted && !r.isRunning && r.nextId == s.nextId + k
    decreases k
  {
    if k > 0 {
      var id := s.nextId;
      var started := AfterFlagChange(s, true);
      FlagChangeRunsEffect(s, true);
      var ticked := AfterTick(started, id);
      var rendered := AfterRender(ticked);
      var stopped := AfterFlagChange(rendered, false);
      assert ticked.remaining == s.remaining - TickMs;
      assert rendered.isRunning && rendered.mounted;
      calc {
        Run(s, RestartCycle(id));
        Run(started, [Tick(id), Render, FlagChange(false)]);
        { assert [Tick(id), Render, FlagChange(false)][1..] == [Render, FlagChange(false)]; }
        Run(ticked, [Render, FlagChange(false)]);
        { assert [Render, FlagChange(false)][1..] == [FlagChange(false)]; }
        Run(rendered, [FlagChange(false)]);
        stopped;
      }
      FlagChangeRunsEffect(rendered, false);
      RunAppend(s, RestartCycle(id), RestartCycles(id + 1, k - 1));
      ExpiredTimerTicksOncePerRestart(stopped, k - 1);
    }
  }

  /**
   * The other order: when a render comes between the restart and the new interval's
   * first tick, the expiry check cancels the interval first and the time stays put.
   */
  lemma ExpiredRestartRenderFirst(s: CountdownState)
    requires WellFormed(s) && s.mounted && !s.isRunning && s.remaining <= 0
    ensures var r := Run(s, [FlagChange(true), Render, Tick(s.nextId), Render, FlagChange(false)]);
      r.remaining == s.remaining && !Counting(r) && !r.isRunning
  {
    var id := s.nextId;
    var started := AfterFlagChange(s, true);
    FlagChangeRunsEffect(s, true);
    var rendered := AfterRender(started);
    ExpiredRenderCancels(started);
    assert AfterTick(rendered, id) == rendered;
    var stopped := AfterFlagChange(rendered, false);
    FlagChangeRunsEffect(rendered, false);
    calc {
      Run(s, [FlagChange(true), Render, Tick(id), Render, FlagChange(false)]);
      { assert [FlagChange(true), Render, Tick(id), Render, FlagChange(false)][1..]
               == [Render, Tick(id), Render, FlagChange(false)]; }
      Run(started, [Render, Tick(id), Render, FlagChange(false)]);
      { assert [Render, Tick(id), Render, FlagChange(false)][1..] == [Tick(id), Render, FlagChange(false)]; }
      Run(rendered, [Tick(id), Render, FlagChange(false)]);
      { assert [Tick(id), Render, FlagChange(false)][1..] == [Render, FlagChange(false)]; }
      Run(rendered, [Render, FlagChange(false)]);
      { assert [Render, FlagChange(false)][1..] == [FlagChange(false)]; }
      Run(rendered, [FlagChange(false)]);
      stopped;
    }
  }

  /** `k` ticks of interval `id`, each followed by a render. */
  function TicksWithRenders(id: nat, k: nat): seq<Event>
    decreases k
  {
    if k == 0 then [] else [Tick(id), Render] + TicksWithRenders(id, k - 1)
  }

  /**
   * While counting from `k` whole ticks with a render after every tick, the timer
   * reaches exactly zero after `k` ticks and the render then cancels its interval.
   */
  lemma {:induction false} CountsDownToZero(s: CountdownState, k: nat)
    requires WellFormed(s) && Counting(s) && s.remaining == k * TickMs && k > 0
    ensures var r := Run(s, TicksWithRenders(s.effectTimer.value, k));
      r.remaining == 0 && !Counting(r) && WellFormed(r)
    decreases k
  {
    AtMostOneInterval(s);
    var id := s.effectTimer.value;
    var ticked := AfterTick(s, id);
    var rendered := AfterRender(ticked);
    calc {
      Run(s, [Tick(id), Render]);
      { assert [Tick(id), Render][1..] == [Render]; }
      Run(ticked, [Render]);
      rendered;
    }
    RunAppend(s, [Tick(id), Render], TicksWithRenders(id, k - 1));
    if k > 1 {
      assert rendered == ticked;
      CountsDownToZero(rendered, k - 1);
    } else {
      ExpiredRenderCancels(ticked);
    }
  }

  /**
   * A 5-second timer mounted while running: the mount's eager decrement counts as one
   * tick, so 99 interval ticks (each followed by a render) bring it to exactly zero with
   * its interval cancelled; any further tick then changes nothing.
   */
  lemma FiveSecondTimer(extra: seq<Event>)
    requires forall i :: 0 <= i < |extra| ==> extra[i].Tick? || extra[i].Render?
    ensures var mounted := AfterMount(TimersStore.Timer("five", 5.0), true);
      && mounted.remaining == 4950 && mounted.live == {1}
      && Run(mounted, TicksWithRenders(1, 99)).remaining == 0
      && !Counting(Run(mounted, TicksWithRenders(1, 99)))
      && Run(Run(mounted, TicksWithRenders(1, 99)), extra).remaining == 0
  {
    var mounted := AfterMount(TimersStore.Timer("five", 5.0), true);
    assert WholeMillis(5.0);
    assert Millis(5.0) == 5000;
    MountStartsAtDuration(TimersStore.Timer("five", 5.0), true);
    CountsDownToZero(mounted, 99);
    var done := Run(mounted, TicksWithRenders(1, 99));
    FrozenWithoutInterval(done, extra);
  }
}
