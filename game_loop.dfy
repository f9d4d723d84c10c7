/** The body of the main loop of src/main.rs: the hot-reload trigger, event handling, the
    capped frame time and the fixed-timestep accumulator. Time is in nanoseconds; the
    clock, the library's modification time and the window events are inputs, and the
    hot-loaded game library's `update` and `interpolate` are function parameters. */
module GameLoop {
  import opened Wrappers
  import opened GameState

  /** `Duration::from_millis(250)`. */
  const MAX_FRAME_TIME: nat := 250_000_000

  datatype Key = Escape | OtherKey

  /** The window events the loop distinguishes. */
  datatype Event =
    | KeyboardInput(virtualKeycode: Option<Key>)
    | Closed
    | OtherEvent

  /** The events that stop the loop: any keyboard input for Escape, pressed or released,
      and the window being closed. */
  predicate RequestsExit(e: Event) {
    e == KeyboardInput(Some(Escape)) || e == Closed
  }

  /** Some event of `events` requests an exit. */
  predicate ExitRequested(events: seq<Event>) {
    exists i :: 0 <= i < |events| && RequestsExit(events[i])
  }

  /** `cmp::min(new_time - curr_time, 250 ms)`. */
  function FrameTime(elapsed: nat): (t: nat)
    ensures t <= elapsed && t <= MAX_FRAME_TIME
    ensures t == elapsed || t == MAX_FRAME_TIME
  {
    if elapsed < MAX_FRAME_TIME then elapsed else MAX_FRAME_TIME
  }

  /** What one iteration of the loop reads from outside: the clock, the library's
      modification time (`None` when the metadata cannot be read) and the queued events. */
  datatype TickInput = TickInput(now: nat, modified: Option<nat>, events: seq<Event>)

  /** `update(&state, &mut next_state)` writing a new next state from the current one
      and the old next state; `interpolate` has the same shape (its float weight is not
      modelled). */
  type GameFn = (State, State) -> State

  /** The step `delta` stays the step of every state the function produces from states
      with that step. */
  ghost predicate KeepsStep(f: GameFn, delta: nat) {
    forall s: State, n: State :: s.deltaTime == delta && n.deltaTime == delta ==> f(s, n).deltaTime == delta
  }

  /** One update: swap `state` and `next_state`, then update into the new next state. */
  function Swapped(update: GameFn, states: (State, State)): (State, State) {
    (states.1, update(states.1, states.0))
  }

  /** The pair of states after `count` updates. */
  function Stepped(update: GameFn, states: (State, State), count: nat): (State, State)
    decreases count
  {
    if count == 0 then states else Swapped(update, Stepped(update, states, count - 1))
  }

  /** Successive updates keep a kept step. */
  lemma {:induction false} SteppedKeepsStep(update: GameFn, states: (State, State), count: nat, delta: nat)
    requires KeepsStep(update, delta) && states.0.deltaTime == delta && states.1.deltaTime == delta
    ensures Stepped(update, states, count).0.deltaTime == delta && Stepped(update, states, count).1.deltaTime == delta
    decreases count
  {
    if count > 0 {
      SteppedKeepsStep(update, states, count - 1, delta);
      var before := Stepped(update, states, count - 1);
      assert update(before.1, before.0).deltaTime == delta;
    }
  }

  /** The quotient and remainder of `a` by `d` are the unique `q`, `m` with
      `a == q * d + m` and `0 <= m < d`. */
  lemma DivisionUnique(a: nat, d: nat, q: nat, m: nat)
    requires 0 < d && m < d && a == q * d + m
    ensures a / d == q && a % d == m
  {
    var q', m' := a / d, a % d;
    assert a == q' * d + m';
    assert (q - q') * d == m' - m;
    if q > q' {
      MultiplyAtLeast(q - q', d);
    } else if q < q' {
      MultiplyAtLeast(q' - q, d);
    }
  }

  lemma MultiplyAtLeast(k: int, d: nat)
    requires 1 <= k
    ensures k * d >= d
  {
    assert k * d == (k - 1) * d + d;
  }

  /** Taking one step off the accumulator takes one off the quotient and keeps the remainder. */
  lemma TakeStep(accumulator: nat, delta: nat)
    requires 0 < delta <= accumulator
    ensures (accumulator - delta) / delta == accumulator / delta - 1
    ensures (accumulator - delta) % delta == accumulator % delta
  {
    var q, m := accumulator / delta, accumulator % delta;
    assert accumulator == q * delta + m;
    PositiveFactor(q, delta);
    assert accumulator - delta == (q - 1) * delta + m;
    DivisionUnique(accumulator - delta, delta, q - 1, m);
  }

  /** With less than one step left over and at most 250 ms added, a tick makes at most one
      update more than fits in 250 ms. */
  lemma UpdatesPerTick(leftover: nat, frameTime: nat, delta: nat)
    requires 0 < delta && leftover < delta && frameTime <= MAX_FRAME_TIME
    ensures (leftover + frameTime) / delta <= MAX_FRAME_TIME / delta + 1
  {
    var q, m := MAX_FRAME_TIME / delta, MAX_FRAME_TIME % delta;
    var a := leftover + frameTime;
    var p, r := a / delta, a % delta;
    assert MAX_FRAME_TIME == q * delta + m && a == p * delta + r;
    assert (q + 2 - p) * delta == (q + 2) * delta - p * delta;
    PositiveFactor(q + 2 - p, delta);
  }

  /** `State::default()`, the state the loop starts from: a zero step and no components. */
  const DEFAULT_STATE: State := State(0, [], [])

  /** The accumulator after `n` passes of the inner loop's body
      `time_accumulator -= state.delta_time`, each taken only while the guard
      `time_accumulator >= state.delta_time` holds. */
  function Drained(accumulator: nat, delta: nat, n: nat): nat
    decreases n
  {
    if n == 0 then accumulator
    else
      var a := Drained(accumulator, delta, n - 1);
      if a >= delta then a - delta else a
  }

  /** As written, the step is that of `State::default()`, zero: however many passes the
      inner loop makes, the accumulator never changes and the guard still holds, so the
      loop never ends. */
  lemma {:induction false} ZeroStepNeverDrains(accumulator: nat, n: nat)
    ensures Drained(accumulator, DEFAULT_STATE.deltaTime, n) == accumulator
    // The loop guard after the `n`-th pass: it compares with a zero step, so it holds for every accumulator.
    ensures Drained(accumulator, DEFAULT_STATE.deltaTime, n) >= DEFAULT_STATE.deltaTime == 0
    decreases n
  {
    if n > 0 {
      ZeroStepNeverDrains(accumulator, n - 1);
    }
  }

  /** While whole steps remain, each pass takes off one step. */
  lemma {:induction false} DrainedSteps(accumulator: nat, delta: nat, k: nat)
    requires 0 < delta && k * delta <= accumulator
    ensures Drained(accumulator, delta, k) == accumulator - k * delta
    decreases k
  {
    if k > 0 {
      assert (k - 1) * delta == k * delta - delta;
      DrainedSteps(accumulator, delta, k - 1);
    }
  }

  /** With a positive step the inner loop ends: after as many passes as whole steps fit,
      the remainder is left and the guard fails. */
  lemma PositiveStepDrains(accumulator: nat, delta: nat)
    requires 0 < delta
    ensures Drained(accumulator, delta, accumulator / delta) == accumulator % delta
    ensures Drained(accumulator, delta, accumulator / delta) < delta
  {
    var q := accumulator / delta;
    assert accumulator == q * delta + accumulator % delta;
    DrainedSteps(accumulator, delta, q);
  }

  lemma PositiveFactor(x: int, d: int)
    requires 0 < d && 0 < x * d
    ensures 0 < x
  {
  }

  class MainLoop {
    var lastModified: nat
    /** How many times the game library has been loaded. */
    var loads: nat
    var state: State
    var nextState: State
    var currTime: nat
    var timeAccumulator: nat
    var gameIsRunning: bool

    /** Both states have the same positive step, and the accumulator holds less than one step. */
    ghost predicate Steady()
      reads this
    {
      0 < state.deltaTime && nextState.deltaTime == state.deltaTime && timeAccumulator < state.deltaTime
    }

    /** The set-up before the loop: the library is loaded once, and the clock starts at
        `now` with an empty accumulator. */
    constructor (modified: nat, now: nat, initial: State)
      requires 0 < initial.deltaTime
      ensures Steady() && gameIsRunning && loads == 1 && lastModified == modified
      ensures state == initial && nextState == initial && currTime == now && timeAccumulator == 0
    {
      lastModified, loads := modified, 1;
      state, nextState := initial, initial;
      currTime, timeAccumulator := now, 0;
      gameIsRunning := true;
    }

    /** The reload trigger: the library is reloaded, and `last_modified` advanced, exactly
        when the file's modification time can be read and is later than `last_modified`. */
    method CheckReload(modified: Option<nat>)
      modifies this`lastModified, this`loads
      ensures lastModified >= old(lastModified)
      ensures if modified.Some? && modified.value > old(lastModified)
              then lastModified == modified.value && loads == old(loads) + 1
              else lastModified == old(lastModified) && loads == old(loads)
    {
      if modified.Some? && modified.value > lastModified {
        loads := loads + 1;
        lastModified := modified.value;
      }
    }

    /** `poll_events`: the loop keeps running exactly when it was running and none of the
        events requests an exit. */
    method PollEvents(events: seq<Event>)
      modifies this`gameIsRunning
      ensures gameIsRunning == (old(gameIsRunning) && forall i :: 0 <= i < |events| ==> !RequestsExit(events[i]))
    {
      for i := 0 to |events|
        invariant gameIsRunning == (old(gameIsRunning) && forall j :: 0 <= j < i ==> !RequestsExit(events[j]))
      {
        if RequestsExit(events[i]) {
          gameIsRunning := false;
        }
      }
    }

    /** The clock step: the accumulator gains the elapsed time, capped at 250 ms. The
        clock never goes back, as `Instant` guarantees. */
    method AdvanceClock(now: nat)
      requires currTime <= now
      modifies this`currTime, this`timeAccumulator
      ensures currTime == now
      ensures timeAccumulator == old(timeAccumulator) + FrameTime(now - old(currTime))
    {
      var frameTime := FrameTime(now - currTime);
      currTime := now;
      timeAccumulator := timeAccumulator + frameTime;
    }

    /** The inner loop: as many updates as whole steps fit in the accumulator, leaving the
        remainder, which is less than one step. */
    method CatchUp(update: GameFn) returns (count: nat)
      requires 0 < state.deltaTime && nextState.deltaTime == state.deltaTime
      requires KeepsStep(update, state.deltaTime)
      modifies this`state, this`nextState, this`timeAccumulator
      ensures Steady() && state.deltaTime == old(state.deltaTime)
      ensures count == old(timeAccumulator) / old(state.deltaTime)
      ensures timeAccumulator == old(timeAccumulator) % old(state.deltaTime)
      ensures timeAccumulator == Drained(old(timeAccumulator), old(state.deltaTime), count)
      ensures (state, nextState) == Stepped(update, (old(state), old(nextState)), count)
    {
      ghost var delta, start := state.deltaTime, (state, nextState);
      count := 0;
      while timeAccumulator >= state.deltaTime
        invariant state.deltaTime == delta && nextState.deltaTime == delta
        invariant (state, nextState) == Stepped(update, start, count)
        invariant count + timeAccumulator / delta == old(timeAccumulator) / delta
        invariant timeAccumulator % delta == old(timeAccumulator) % delta
        invariant timeAccumulator == Drained(old(timeAccumulator), delta, count)
        decreases timeAccumulator
      {
        state, nextState := nextState, state;
        nextState := update(state, nextState);
        TakeStep(timeAccumulator, delta);
        timeAccumulator := timeAccumulator - state.deltaTime;
        count := count + 1;
      }
    }

    /** One iteration of the loop for the given reading of the outside world. */
    method Tick(input: TickInput, update: GameFn, interpolate: GameFn) returns (count: nat)
      requires Steady() && currTime <= input.now
      requires KeepsStep(update, state.deltaTime) && KeepsStep(interpolate, state.deltaTime)
      modifies this
      ensures Steady() && state.deltaTime == old(state.deltaTime) && currTime == input.now
      ensures lastModified >= old(lastModified)
      ensures if input.modified.Some? && input.modified.value > old(lastModified)
              then lastModified == input.modified.value && loads == old(loads) + 1
              else lastModified == old(lastModified) && loads == old(loads)
      ensures gameIsRunning == (old(gameIsRunning) && forall i :: 0 <= i < |input.events| ==> !RequestsExit(input.events[i]))
      ensures var total := old(timeAccumulator) + FrameTime(input.now - old(currTime));
        count == total / old(state.deltaTime) && timeAccumulator == total % old(state.deltaTime)
      ensures count <= MAX_FRAME_TIME / old(state.deltaTime) + 1
      ensures var stepped := Stepped(update, (old(state), old(nextState)), count);
        state == stepped.0 && nextState == interpolate(stepped.0, stepped.1)
    {
      CheckReload(input.modified);
      PollEvents(input.events);
      ghost var leftover, frameTime := timeAccumulator, FrameTime(input.now - currTime);
      AdvanceClock(input.now);
      count := CatchUp(update);
      UpdatesPerTick(leftover, frameTime, state.deltaTime);
      nextState := interpolate(state, nextState);
    }

    /** `while game_is_running`: ticks are taken from `inputs` until an event requests an
        exit. Afterwards the loop is still running exactly when no tick's events request
        an exit; when it stopped, the last tick taken is the first whose events request
        one; and the library's modification time has never gone back. */
    method Run(inputs: seq<TickInput>, update: GameFn, interpolate: GameFn) returns (ticks: nat)
      requires Steady() && gameIsRunning
      requires forall k :: 0 <= k < |inputs| ==> currTime <= inputs[k].now
      requires forall j, k :: 0 <= j < k < |inputs| ==> inputs[j].now <= inputs[k].now
      requires KeepsStep(update, state.deltaTime) && KeepsStep(interpolate, state.deltaTime)
      modifies this
      ensures Steady() && lastModified >= old(lastModified) && ticks <= |inputs|
      ensures gameIsRunning <==> forall k, i :: 0 <= k < |inputs| && 0 <= i < |inputs[k].events| ==> !RequestsExit(inputs[k].events[i])
      ensures !gameIsRunning ==> 0 < ticks && ExitRequested(inputs[ticks - 1].events)
      ensures !gameIsRunning ==> forall k, i :: 0 <= k < ticks - 1 && 0 <= i < |inputs[k].events| ==> !RequestsExit(inputs[k].events[i])
      ensures gameIsRunning ==> ticks == |inputs|
    {
      ghost var delta := state.deltaTime;
      ticks := 0;
      while gameIsRunning && ticks < |inputs|
        invariant ticks <= |inputs| && Steady() && state.deltaTime == delta
        invariant lastModified >= old(lastModified)
        invariant ticks < |inputs| ==> currTime <= inputs[ticks].now
        invariant forall k, i :: 0 <= k < ticks - 1 && 0 <= i < |inputs[k].events| ==> !RequestsExit(inputs[k].events[i])
        invariant gameIsRunning ==> forall k, i :: 0 <= k < ticks && 0 <= i < |inputs[k].events| ==> !RequestsExit(inputs[k].events[i])
        invariant !gameIsRunning ==> 0 < ticks && ExitRequested(inputs[ticks - 1].events)
        decreases |inputs| - ticks
      {
        var input := inputs[ticks];
        var updates := Tick(input, update, interpolate);
        ticks := ticks + 1;
      }
    }
  }
}
