# Countdown timers: store reducer and per-timer countdown

This project models the logic core of a small browser countdown-timer app.
The rest of the app is presentation.

- **The timers store** (`TimersStore`, in `store.dfy`). The store holds a global run flag and an ordered list of timer definitions (name, duration in seconds). It starts running with no timers.
  - A pure reducer handles three actions: start all, stop all, and add a timer.
  - A provider holds the current state. Its three operations `AddTimer`, `StartTimers` and `StopTimers` each dispatch one action. Dispatching replaces the held state with the reducer's result.
- **The countdown of one rendered timer.** The clock is replaced by explicit events. The events are: mount, change of the run flag, tick of a live interval, render, and unmount.
  - `Countdown` (in `countdown.dfy`) is the event machine as pure functions, with the lemmas about it.
  - `TimerComponent.TimerDesign` (in `timer_design.dfy`) is the component as an object. It has fields for the remaining time, the interval ref, the interval the latest effect run will clear, and the set of intervals still live. The constructor and the event methods `FlagChange`, `Tick`, `Render` and `Unmount` are each proved to produce the machine's next state and to keep the machine's invariant. `RunEffect` and `Cleanup` are not events: they are the effect body and its cleanup. They are proved to produce the machine's effect-run and cleanup states. They keep the invariant only in React's order: cleanup first, then the effect body. A second effect run without a cleanup in between would leave two intervals live.

Interval ids are modelled explicitly:
- `setInterval` hands out fresh positive ids, so a held id is always truthy.
- `clearInterval` removes an id from the live set. Clearing a missing id does nothing.
- Only a live interval's callback changes the remaining time.

This representation makes it possible to prove two things: at most one interval is ever live, and unmount or stop leaves none.

Three consequences of the code that a reader might not expect:
- **The eager decrement runs on every effect run.** The decrement at client/src/components/Timer.tsx:28-33 applies on every effect run, including the switch to stopped. So when more than 50 ms remain, a start immediately followed by a stop takes off 100 ms (`Countdown.StartThenStopCostsTwoTicks`). With 50 ms or less, the second decrement does not apply, and at or below zero neither does.
- **A restarted expired timer can tick again.** Each stop/start cycle sets a new interval. When the new interval's first tick comes before the next render, the time goes one more tick below zero per restart, without bound (`Countdown.ExpiredTimerTicksOncePerRestart`). When a render comes first, the expiry check cancels the interval and the time stays put (`Countdown.ExpiredRestartRenderFirst`). Which order happens depends on React's re-rendering, which is not modelled.
- **A 5 s timer mounted while running reaches 0 after 99 interval ticks.** The mount's eager decrement takes off the first 50 ms (`Countdown.FiveSecondTimer`).

## Model

| member | source | states |
|---|---|---|
| `TimersStore.InitialState` | client/src/components/store/timers-context.tsx:11-14 | the store starts running, with an empty timer list |
| `TimersStore.Reduce` | client/src/components/store/timers-context.tsx:55-82 | add keeps the flag and grows the list by exactly one. Start and stop keep the list. Every earlier entry keeps its place and value |
| `TimersStore.AddAppendsVerbatim` | client/src/components/store/timers-context.tsx:56-66 | add appends the payload exactly as given, with no check on duplicate names or the duration, and keeps the flag |
| `TimersStore.StartAndStopSetFlag` | client/src/components/store/timers-context.tsx:68-79 | start yields running, stop yields stopped, and both keep the timers unchanged |
| `TimersStore.FlagActionIdempotent` | client/src/components/store/timers-context.tsx:68-79 | dispatching start twice (or stop twice) equals dispatching it once |
| `TimersStore.FlagActionCommutesWithAdd` | client/src/components/store/timers-context.tsx:56-79 | start or stop followed by an add equals the add followed by the start or stop |
| `TimersStore.HeaderToggleFlips` | client/src/components/Header.tsx:11 | the header button (stop when running, start otherwise) flips the flag and keeps the timers |
| `TimersStore.Dispatch` | client/src/components/store/timers-context.tsx:85 | dispatching actions in order through the reducer only ever appends to the list: the old list is a prefix of the new one |
| `TimersStore.AddsKeepFlag` | client/src/components/store/timers-context.tsx:56-66 | any run of adds leaves the run flag as it was |
| `TimersStore.LastStartOrStopWins` | client/src/components/store/timers-context.tsx:68-79 | after any actions, a start or stop and then only adds, the flag is running exactly when that last flag action was a start |
| `TimersStore.DispatchCharacterised` | client/src/components/store/timers-context.tsx:55-82 | for any action sequence: the flag is set by the last start or stop (else unchanged), and the list is the old list followed by every added payload in dispatch order |
| `TimersStore.TimersOnlyGrow` | client/src/components/store/timers-context.tsx:56-66 | the old list is a prefix of the list after any actions, which is longer by exactly the number of adds |
| `TimersStore.AddsKeepDispatchOrder` | client/src/components/store/timers-context.tsx:56-66 | n adds yield the old list followed by the n payloads in dispatch order, with the flag unchanged |
| `TimersStore.StopAddStartScenario` | client/src/components/store/timers-context.tsx:55-82 | stop, add t, start from the initial state gives running with exactly [t] |
| `TimersStore.TimersProvider.constructor` | client/src/components/store/timers-context.tsx:85 | the provider starts in the initial state with nothing dispatched |
| `TimersStore.TimersProvider.AddTimer` | client/src/components/store/timers-context.tsx:90-92 | the new state is the reducer applied to the old state and an add of the given timer: the list gains that timer at the end and the flag is kept |
| `TimersStore.TimersProvider.StartTimers` | client/src/components/store/timers-context.tsx:93-95 | the new state is the reducer applied to a start: running, timers kept |
| `TimersStore.TimersProvider.StopTimers` | client/src/components/store/timers-context.tsx:96-98 | the new state is the reducer applied to a stop: stopped, timers kept |
| `TimersStore.ProviderTimersAreAddedPayloads` | client/src/components/store/timers-context.tsx:84-99 | the provider's list is exactly the payloads of all adds so far, and its flag is set by the last start or stop (initially running) |
| `Countdown.Millis` | client/src/components/Timer.tsx:9 | the initial remaining time is the duration times 1000 |
| `Countdown.EagerDecrement` | client/src/components/Timer.tsx:28-33 | the eager decrement never raises the time. It changes the time exactly when the time is positive, then by exactly one tick, so it ends above -50 |
| `Countdown.Initial` | client/src/components/Timer.tsx:8-9 | right after the first render the time is the duration in ms, the timer is mounted, nothing is live and the invariant holds |
| `Countdown.AfterMount` | client/src/components/Timer.tsx:8-41 | after mounting the invariant holds, the time is the duration in ms less one eager decrement, and an interval is live exactly when the flag is on |
| `Countdown.RunEffect` | client/src/components/Timer.tsx:16-33 | the effect body applies exactly one eager decrement and keeps the flag. Run after a cleanup, it keeps the invariant and leaves an interval live exactly when running |
| `Countdown.Cleanup` | client/src/components/Timer.tsx:37-39 | the cleanup keeps the time, the flag and the mount, and leaves nothing live while keeping the invariant |
| `Countdown.AfterFlagChange` | client/src/components/Timer.tsx:16-41 | a flag change never raises the time. On a mounted timer it keeps the invariant and records the new flag |
| `Countdown.AfterTick` | client/src/components/Timer.tsx:19-22 | a tick lowers the time by at most 50 ms, changes nothing else and keeps the invariant |
| `Countdown.AfterRender` | client/src/components/Timer.tsx:12-14 | a render keeps the time, changes nothing while time is left, and keeps the invariant |
| `Countdown.AfterUnmount` | client/src/components/Timer.tsx:37-39 | unmount keeps the time, marks the timer unmounted, leaves nothing live and keeps the invariant |
| `Countdown.Step` | client/src/components/Timer.tsx:9-41 | no single event (flag change, tick, render, unmount) raises the remaining time, and every event keeps the invariant |
| `Countdown.Run` | client/src/components/Timer.tsx:9-41 | over any sequence of events the remaining time never increases and the invariant is kept |
| `Countdown.MountStartsAtDuration` | client/src/components/Timer.tsx:8-33 | a mounted timer starts at duration × 1000 ms. Its first effect run applies one eager decrement, and an interval is live exactly when the flag is on |
| `Countdown.AtMostOneInterval` | client/src/components/Timer.tsx:16-41 | at most one interval is live, and a live one is the one the latest effect run's cleanup will clear |
| `Countdown.TickSubtractsWithoutClamp` | client/src/components/Timer.tsx:19-22 | a tick of the live interval subtracts exactly 50 ms, so a positive time below 50 becomes negative |
| `Countdown.TickGoesNegative` | client/src/components/Timer.tsx:19-22 | concretely: with 30 ms left, one tick leaves -20 ms |
| `Countdown.FlagChangeRunsEffect` | client/src/components/Timer.tsx:16-41 | a flag change in either direction applies exactly one eager decrement. Afterwards a single fresh interval is live when running, and none when stopped |
| `Countdown.SameFlagChangesNothing` | client/src/components/Timer.tsx:41 | re-dispatching the flag value already seen runs no effect and changes nothing |
| `Countdown.StopCancelsTicks` | client/src/components/Timer.tsx:24-39 | after stopping no interval is live, and every tick leaves the state unchanged |
| `Countdown.ExpiredRenderCancels` | client/src/components/Timer.tsx:12-14 | a render with time at or below zero cancels the live interval and keeps the time |
| `Countdown.UnmountCancels` | client/src/components/Timer.tsx:37-39 | unmount leaves no live interval and keeps the time |
| `Countdown.FrozenWithoutInterval` | client/src/components/Timer.tsx:12-41 | with no live interval and no change to a different flag value, the time is frozen and no interval becomes live (e.g. after a stop or an expiry render, until the next flag change) |
| `Countdown.StartThenStopCostsTwoTicks` | client/src/components/Timer.tsx:28-33 | from any stopped time above 50 ms, start then stop with no tick in between lowers the time by 100 ms and leaves nothing live |
| `Countdown.ExpiredTimerTicksOncePerRestart` | client/src/components/Timer.tsx:12-33 | after k stop/start cycles, each with the new interval's tick before the render, an expired timer is k ticks further below zero |
| `Countdown.ExpiredRestartRenderFirst` | client/src/components/Timer.tsx:12-33 | restarting an expired timer with a render before the new interval's first tick cancels that interval, so the time stays put and nothing is live after the stop |
| `Countdown.CountsDownToZero` | client/src/components/Timer.tsx:12-22 | counting from k × 50 ms with a render after every tick reaches exactly 0 after k ticks, with the interval cancelled |
| `Countdown.FiveSecondTimer` | client/src/components/Timer.tsx:9-33 | a 5 s timer mounted while running is at 4950 ms with interval 1 live. After 99 ticks with renders it is at 0 with its interval cancelled, and further ticks and renders keep it at 0 |
| `TimerComponent.TimerDesign.constructor` | client/src/components/Timer.tsx:8-9 | the new component's state is the machine's mount state for its props and the current flag, and it keeps the invariant |
| `TimerComponent.TimerDesign.RunEffect` | client/src/components/Timer.tsx:16-33 | the fields after the effect body are the machine's effect-run state. When it runs after a cleanup (no effect timer pending) on a mounted timer, the invariant is kept |
| `TimerComponent.TimerDesign.Cleanup` | client/src/components/Timer.tsx:37-39 | the fields after the cleanup are the machine's cleanup state. From a valid state it leaves nothing live and keeps the invariant |
| `TimerComponent.TimerDesign.FlagChange` | client/src/components/Timer.tsx:16-41 | the fields become the machine's flag-change state, and the invariant is kept |
| `TimerComponent.TimerDesign.Tick` | client/src/components/Timer.tsx:19-22 | the fields become the machine's tick state, and the invariant is kept |
| `TimerComponent.TimerDesign.Render` | client/src/components/Timer.tsx:12-14 | the fields become the machine's render state, and the invariant is kept |
| `TimerComponent.TimerDesign.Unmount` | client/src/components/Timer.tsx:37-39 | the fields become the machine's unmount state. No interval is live and the component is unmounted |

## Left out

- Presentation is not modelled: the buttons, inputs, containers, page layout and the list of rendered timers.
- The timer list is keyed by name. A duplicate name can make React reuse or remount a component, and that is not modelled. Each countdown is modelled as its own instance.
- The add-timer form is not modelled. Its string-to-number coercion follows JavaScript floating-point and NaN rules. A duration is a `real` here, so NaN and the infinities are left out.
- The two-decimal display and the progress bar are not modelled. Both are floating-point formatting of the remaining time.
- The context lookup and its null-context error are not modelled. They are framework wiring, and every operation here is called on an existing provider.
- Real timing, React's scheduling and state-update batching are replaced by explicit events that may interleave in any order. Development-mode double effect runs are left out for the same reason.
- Interval ids come from a per-instance counter starting at 1. The browser hands out ids from a counter shared by the page, but only freshness and positivity matter here.
- The reducer's identity fallback for an unknown action has no case, because the action type is closed.
- Countdown.Millis: requires that the duration times 1000 is a whole number. Fractional milliseconds would need floating-point remaining times. The product is exact here, but JavaScript computes it in doubles and rounds it. So some decimal durations start a fraction off a whole millisecond: 16.1 × 1000 is 16100.000000000002 and 2.01 × 1000 is 2009.9999999999998. Such a timer needs one more tick and stops just below zero instead of at exactly 0. The model's countdowns from whole multiples of 50 ms (`Countdown.CountsDownToZero`) do not cover that case.
- TimerComponent.TimerDesign.constructor: requires that the duration times 1000 is a whole number, for the same reason.
