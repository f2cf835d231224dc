/**
 * One rendered timer as an object: its remaining-time state, its interval ref, the
 * interval id its latest effect run will clear on cleanup, and the browser's record of
 * which intervals are still live. Each method is one event and follows the matching
 * function of the `Countdown` machine.
 */
module TimerComponent {
  import TimersStore
  import Countdown

  class TimerDesign {
    var remaining: int
    var intervalRef: Countdown.Option<nat>
    var effectTimer: Countdown.Option<nat>
    var live: set<nat>
    var nextId: nat
    var isRunning: bool
    var mounted: bool

    /** The fields as a value of the machine. */
    function State(): Countdown.CountdownState
      reads this
    {
      Countdown.CountdownState(remaining, intervalRef, effectTimer, live, nextId, isRunning, mounted)
    }

    ghost predicate Valid()
      reads this
    {
      Countdown.WellFormed(State())
    }

    /** Mounting: the state starts at the duration in milliseconds, then the effect runs. */
    constructor (props: TimersStore.Timer, isRunning: bool)
      requires Countdown.WholeMillis(props.duration)
      ensures Valid()
      ensures State() == Countdown.AfterMount(props, isRunning)
    {
      remaining := Countdown.Millis(props.duration);
      intervalRef := Countdown.None;
      effectTimer := Countdown.None;
      live := {};
      nextId := 1;
      this.isRunning := isRunning;
      mounted := true;
      new;
      RunEffect();
    }

    /** The effect body for the flag held in `isRunning`. */
    method RunEffect()
      modifies this
      ensures State() == Countdown.RunEffect(old(State()))
      ensures old(Valid()) && old(effectTimer).None? && mounted ==> Valid()
    {
      if isRunning {
        var timer := nextId;
        nextId := nextId + 1;
        live := live + {timer};
        intervalRef := Countdown.Some(timer);
        effectTimer := Countdown.Some(timer);
      } else {
        if intervalRef.Some? {
          live := live - {intervalRef.value};
        }
        effectTimer := Countdown.None;
      }
      if remaining > 0 {
        remaining := remaining - Countdown.TickMs;
      }
    }

    /** The cleanup of the latest effect run. */
    method Cleanup()
      modifies this
      ensures State() == Countdown.Cleanup(old(State()))
      ensures old(Valid()) ==> Valid() && live == {}
    {
      if effectTimer.Some? {
        live := live - {effectTimer.value};
      }
      effectTimer := Countdown.None;
    }

    /** The store's run flag, as seen by this timer; only a different value re-runs the effect. */
    method FlagChange(flag: bool)
      requires Valid() && mounted
      modifies this
      ensures Valid()
      ensures State() == Countdown.AfterFlagChange(old(State()), flag)
    {
      if flag != isRunning {
        Cleanup();
        isRunning := flag;
        RunEffect();
      }
    }

    /** A callback of interval `id`; only a live interval's callback runs. */
    method Tick(id: nat)
      requires Valid()
      modifies this
      ensures Valid()
      ensures State() == Countdown.AfterTick(old(State()), id)
    {
      if id in live {
        remaining := remaining - Countdown.TickMs;
      }
    }

    /** A render: the expiry check clears the interval the ref holds once time is up. */
    method Render()
      requires Valid() && mounted
      modifies this
      ensures Valid()
      ensures State() == Countdown.AfterRender(old(State()))
    {
      if remaining <= 0 && intervalRef.Some? {
        live := live - {intervalRef.value};
      }
    }

    method Unmount()
      requires Valid() && mounted
      modifies this
      ensures Valid() && !mounted
      ensures State() == Countdown.AfterUnmount(old(State()))
      ensures live == {}
    {
      Countdown.UnmountCancels(State());
      Cleanup();
      mounted := false;
    }
  }
}
