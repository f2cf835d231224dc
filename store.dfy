/**
 * The timers store: the list of timer definitions and the global run flag,
 * the closed set of actions, the reducer that maps (state, action) to the next
 * state, and the provider whose three operations each dispatch one action.
 */
module TimersStore {

  /** One timer definition. `duration` is in seconds and is stored exactly as given. */
  datatype Timer = Timer(name: string, duration: real)

  /** The whole store: the global run flag and the timers in insertion order. */
  datatype TimersState = TimersState(isRunning: bool, timers: seq<Timer>)

  /** The three actions the store understands; only `Add` carries a payload. */
  datatype Action =
    | Start
    | Stop
    | Add(payload: Timer)

  /** The state the store is created with: running, and no timers yet. */
  function InitialState(): (s: TimersState)
    ensures s.isRunning && |s.timers| == 0
  {
    TimersState(true, [])
  }

  /**
   * The reducer. Adding appends a copy of the payload and leaves the flag alone;
   * starting and stopping set the flag and leave the list alone. The action set is
   * closed, so the source's identity fallback for an unknown action has no case here.
   */
  function Reduce(state: TimersState, action: Action): (r: TimersState)
    ensures action.Add? ==> r.isRunning == state.isRunning
    ensures !action.Add? ==> r.timers == state.timers
    ensures |r.timers| == |state.timers| + (if action.Add? then 1 else 0)
    ensures r.timers[..|state.timers|] == state.timers
  {
    match action
    case Add(payload) =>
      state.(timers := state.timers + [Timer(payload.name, payload.duration)])
    case Start =>
      state.(isRunning := true)
    case Stop =>
      state.(isRunning := false)
  }

  /**
   * The state reached by dispatching `actions` one after the other, first one first,
   * as the held state evolves under the reducer. The list is only ever appended to.
   */
  function Dispatch(state: TimersState, actions: seq<Action>): (r: TimersState)
    ensures state.timers <= r.timers
    decreases |actions|
  {
    if actions == [] then state else Dispatch(Reduce(state, actions[0]), actions[1..])
  }

  /** The payloads of the `Add` actions in `actions`, in dispatch order. */
  function AddedTimers(actions: seq<Action>): seq<Timer>
    decreases |actions|
  {
    if actions == [] then []
    else AddedBy(actions[0]) + AddedTimers(actions[1..])
  }

  /** The run flag after one action: start sets it, stop clears it, an add keeps it. */
  function FlagAfter(flag: bool, action: Action): bool {
    match action
    case Start => true
    case Stop => false
    case Add(_) => flag
  }

  /** The payload an action adds to the list: one timer for an add, none otherwise. */
  function AddedBy(action: Action): seq<Timer> {
    if action.Add? then [action.payload] else []
  }

  /** The run flag after `actions`: the last start or stop wins, otherwise `flag` is kept. */
  function FinalFlag(flag: bool, actions: seq<Action>): bool
    decreases |actions|
  {
    if actions == [] then flag else FinalFlag(FlagAfter(flag, actions[0]), actions[1..])
  }

  /** Every action of `actions` is an add. */
  predicate OnlyAdds(actions: seq<Action>) {
    forall i :: 0 <= i < |actions| ==> actions[i].Add?
  }

  /** Folding the flag over a concatenation folds it over each half in turn. */
  lemma {:induction false} FinalFlagAppend(flag: bool, xs: seq<Action>, ys: seq<Action>)
    ensures FinalFlag(flag, xs + ys) == FinalFlag(FinalFlag(flag, xs), ys)
    decreases |xs|
  {
    if xs == [] {
      assert xs + ys == ys;
    } else {
      assert (xs + ys)[0] == xs[0];
      assert (xs + ys)[1..] == xs[1..] + ys;
      FinalFlagAppend(FlagAfter(flag, xs[0]), xs[1..], ys);
    }
  }

  /** Adds alone never change the run flag. */
  lemma {:induction false} AddsKeepFlag(flag: bool, adds: seq<Action>)
    requires OnlyAdds(adds)
    ensures FinalFlag(flag, adds) == flag
    decreases |adds|
  {
    if adds != [] {
      assert OnlyAdds(adds[1..]) by {
        forall i | 0 <= i < |adds[1..]| ensures adds[1..][i].Add? {
          assert adds[1..][i] == adds[i + 1];
        }
      }
      AddsKeepFlag(flag, adds[1..]);
    }
  }

  /** The last start or stop wins, whatever came before it and however many adds follow. */
  lemma LastStartOrStopWins(flag: bool, before: seq<Action>, a: Action, adds: seq<Action>)
    requires !a.Add? && OnlyAdds(adds)
    ensures FinalFlag(flag, before + [a] + adds) == a.Start?
  {
    FinalFlagAppend(flag, before + [a], adds);
    FinalFlagAppend(flag, before, [a]);
    assert [a][1..] == [];
    AddsKeepFlag(FinalFlag(flag, before + [a]), adds);
  }

  /** One `Add` action per timer of `ts`, in the same order. */
  function AddAll(ts: seq<Timer>): (actions: seq<Action>)
    ensures |actions| == |ts|
    ensures forall i :: 0 <= i < |ts| ==> actions[i] == Add(ts[i])
  {
    seq(|ts|, i requires 0 <= i < |ts| => Add(ts[i]))
  }

  /** Adding appends the payload verbatim: no check on duplicate names or on the duration. */
  lemma AddAppendsVerbatim(state: TimersState, t: Timer)
    ensures Reduce(state, Add(t)).timers == state.timers + [t]
    ensures Reduce(state, Add(t)).isRunning == state.isRunning
  {
  }

  /** Start sets the flag, stop clears it; neither touches the timers. */
  lemma StartAndStopSetFlag(state: TimersState)
    ensures Reduce(state, Start) == TimersState(true, state.timers)
    ensures Reduce(state, Stop) == TimersState(false, state.timers)
  {
  }

  /** Dispatching start (or stop) twice in a row is the same as dispatching it once. */
  lemma FlagActionIdempotent(state: TimersState, a: Action)
    requires !a.Add?
    ensures Reduce(Reduce(state, a), a) == Reduce(state, a)
  {
  }

  /** Start and stop commute with an add: they change disjoint fields. */
  lemma FlagActionCommutesWithAdd(state: TimersState, a: Action, t: Timer)
    requires !a.Add?
    ensures Reduce(Reduce(state, a), Add(t)) == Reduce(Reduce(state, Add(t)), a)
  {
  }

  /** The header button dispatches stop when running and start otherwise: it flips the flag. */
  lemma HeaderToggleFlips(state: TimersState)
    ensures Reduce(state, if state.isRunning then Stop else Start)
            == TimersState(!state.isRunning, state.timers)
  {
  }

  /** Dispatching one more action is reducing the state reached so far. */
  lemma {:induction false} DispatchSnoc(state: TimersState, actions: seq<Action>, a: Action)
    ensures Dispatch(state, actions + [a]) == Reduce(Dispatch(state, actions), a)
    decreases |actions|
  {
    if actions == [] {
      assert actions + [a] == [a];
      assert [a][1..] == [];
    } else {
      assert (actions + [a])[0] == actions[0];
      assert (actions + [a])[1..] == actions[1..] + [a];
      DispatchSnoc(Reduce(state, actions[0]), actions[1..], a);
    }
  }

  /** One action in the terms of the characterisation below. */
  lemma ReduceOneStep(state: TimersState, action: Action)
    ensures Reduce(state, action)
            == TimersState(FlagAfter(state.isRunning, action), state.timers + AddedBy(action))
  {
  }

  /**
   * What any sequence of actions does: the flag is decided by the last start or stop,
   * and the list is the old list followed by every added payload in dispatch order.
   */
  lemma {:induction false} DispatchCharacterised(state: TimersState, actions: seq<Action>)
    ensures Dispatch(state, actions)
            == TimersState(FinalFlag(state.isRunning, actions), state.timers + AddedTimers(actions))
    decreases |actions|
  {
    if actions != [] {
      var next := Reduce(state, actions[0]);
      ReduceOneStep(state, actions[0]);
      DispatchCharacterised(next, actions[1..]);
      assert state.timers + AddedTimers(actions)
             == (state.timers + AddedBy(actions[0])) + AddedTimers(actions[1..]);
    }
  }

  /** Timers are only ever appended: every earlier list is a prefix of every later one. */
  lemma TimersOnlyGrow(state: TimersState, actions: seq<Action>)
    ensures state.timers <= Dispatch(state, actions).timers
    ensures |Dispatch(state, actions).timers| == |state.timers| + |AddedTimers(actions)|
  {
    DispatchCharacterised(state, actions);
  }

  /** The payloads of the adds of `ts` are `ts`, and those adds leave the flag alone. */
  lemma {:induction false} AddAllPayloads(flag: bool, ts: seq<Timer>)
    ensures AddedTimers(AddAll(ts)) == ts
    ensures FinalFlag(flag, AddAll(ts)) == flag
    decreases |ts|
  {
    if ts != [] {
      assert AddAll(ts)[1..] == AddAll(ts[1..]);
      AddAllPayloads(flag, ts[1..]);
      assert ts == [ts[0]] + ts[1..];
    }
  }

  /** n adds yield the old list followed by the n payloads in dispatch order. */
  lemma AddsKeepDispatchOrder(state: TimersState, ts: seq<Timer>)
    ensures Dispatch(state, AddAll(ts)) == TimersState(state.isRunning, state.timers + ts)
  {
    DispatchCharacterised(state, AddAll(ts));
    AddAllPayloads(state.isRunning, ts);
  }

  /** Stop, add one timer, start: running again, with exactly that one timer. */
  lemma StopAddStartScenario(t: Timer)
    ensures Dispatch(InitialState(), [Stop, Add(t), Start]) == TimersState(true, [t])
  {
    var stopped := Reduce(InitialState(), Stop);
    var added := Reduce(stopped, Add(t));
    assert [Stop, Add(t), Start][1..] == [Add(t), Start];
    assert [Add(t), Start][1..] == [Start];
    assert [Start][1..] == [];
    calc {
      Dispatch(InitialState(), [Stop, Add(t), Start]);
      Dispatch(stopped, [Add(t), Start]);
      Dispatch(added, [Start]);
      Reduce(added, Start);
    }
  }

  /**
   * The provider that holds the store's state. Each operation dispatches exactly one
   * action, which replaces the held state by the reducer's result. `dispatched`
   * records every action dispatched so far.
   */
  class TimersProvider {
    var state: TimersState
    ghost var dispatched: seq<Action>

    /** The held state is always the initial state folded over every dispatched action. */
    ghost predicate Valid()
      reads this
    {
      state == Dispatch(InitialState(), dispatched)
    }

    constructor ()
      ensures Valid() && dispatched == []
      ensures state == InitialState()
    {
      state := InitialState();
      dispatched := [];
    }

    method AddTimer(timerData: Timer)
      requires Valid()
      modifies this
      ensures Valid() && dispatched == old(dispatched) + [Add(timerData)]
      ensures state == Reduce(old(state), Add(timerData))
      ensures state.timers == old(state.timers) + [timerData]
      ensures state.isRunning == old(state.isRunning)
    {
      DispatchSnoc(InitialState(), dispatched, Add(timerData));
      state := Reduce(state, Add(timerData));
      dispatched := dispatched + [Add(timerData)];
    }

    method StartTimers()
      requires Valid()
      modifies this
      ensures Valid() && dispatched == old(dispatched) + [Start]
      ensures state == Reduce(old(state), Start)
      ensures state == TimersState(true, old(state.timers))
    {
      DispatchSnoc(InitialState(), dispatched, Start);
      state := Reduce(state, Start);
      dispatched := dispatched + [Start];
    }

    method StopTimers()
      requires Valid()
      modifies this
      ensures Valid() && dispatched == old(dispatched) + [Stop]
      ensures state == Reduce(old(state), Stop)
      ensures state == TimersState(false, old(state.timers))
    {
      DispatchSnoc(InitialState(), dispatched, Stop);
      state := Reduce(state, Stop);
      dispatched := dispatched + [Stop];
    }
  }

  /** The provider's timers are exactly the added payloads, in dispatch order. */
  lemma ProviderTimersAreAddedPayloads(p: TimersProvider)
    requires p.Valid()
    ensures p.state.timers == AddedTimers(p.dispatched)
    ensures p.state.isRunning == FinalFlag(true, p.dispatched)
  {
    DispatchCharacterised(InitialState(), p.dispatched);
  }
}
