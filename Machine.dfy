// The counter's state machine as values: one transition per queued input
// event, and the event loop that applies transitions until a short Back.
module Machine {
  import opened Input

  /** Upper bound of the counter. */
  const MAX_COUNT: int := 9999
  /** Length of a vibration pulse, in milliseconds. */
  const VIBRO_TIME_MS: nat := 20
  /** How long the red blink is held before the pulse at a bound. */
  const BLINK_DELAY_MS: nat := 200

  /** The fields of the application record that the loop reads and writes. */
  datatype State = State(count: int, pressed: bool, vibro: bool)

  /** Observable effects, in the order the loop produces them. */
  datatype Cmd =
    | Blink          // red blink notification
    | VibroOn        // vibration motor on
    | VibroOff       // vibration motor off
    | Delay(ms: nat) // blocking delay
    | Redraw         // view port update request

  datatype StepResult = StepResult(state: State, trace: seq<Cmd>, processing: bool)

  datatype RunOutcome = RunOutcome(state: State, trace: seq<Cmd>, consumed: nat, terminated: bool)

  predicate InRange(count: int)
  {
    0 <= count <= MAX_COUNT
  }

  /** The initial record: count 0 and vibration off; `pressed` is left as
    * whatever the allocation held. */
  function Init(pressed: bool): (s: State)
    ensures s.count == 0 && !s.vibro && InRange(s.count)
  {
    State(0, pressed, false)
  }

  /** The on, hold, off sequence of one vibration pulse. */
  const PulseCmds: seq<Cmd> := [VibroOn, Delay(VIBRO_TIME_MS), VibroOff]

  /** The pulse helper: a pulse when vibration is enabled, nothing otherwise. */
  function Pulse(enabled: bool): (r: seq<Cmd>)
    ensures r != [] <==> enabled
    ensures r == [] || r == PulseCmds
  {
    if enabled then PulseCmds else []
  }

  /** Feedback when the counter is already at a bound: blink, hold, pulse. */
  function BoundFeedback(vibro: bool): (r: seq<Cmd>)
    ensures |r| >= 2 && r[..2] == [Blink, Delay(BLINK_DELAY_MS)] && r[2..] == Pulse(vibro)
  {
    [Blink, Delay(BLINK_DELAY_MS)] + Pulse(vibro)
  }

  predicate IsShortBack(ev: InputEvent)
  {
    ev.kind == Short && ev.key == Back
  }

  predicate IsLongOk(ev: InputEvent)
  {
    ev.kind == Long && ev.key == Ok
  }

  predicate IsLongBack(ev: InputEvent)
  {
    ev.kind == Long && ev.key == Back
  }

  /** One pass of the loop body for a dequeued event. */
  function Step(s: State, ev: InputEvent): (r: StepResult)
    ensures InRange(s.count) ==> InRange(r.state.count)
    ensures r.processing <==> !IsShortBack(ev)
    ensures !r.processing ==> r.state == s && r.trace == []
    ensures r.state.vibro == if IsLongOk(ev) then !s.vibro else s.vibro
    ensures r.state.pressed == (s.pressed || (ev.kind == Short && r.state.count != s.count))
    ensures IsLongBack(ev) || s.count - 1 <= r.state.count <= s.count + 1
    ensures Redraw !in r.trace
    ensures !Forwarded(ev) ==> r == StepResult(s, [], true)
  {
    match ev.kind
    case Short =>
      (match ev.key
      case Up | Ok =>
        if s.count < MAX_COUNT then
          StepResult(s.(pressed := true, count := s.count + 1), Pulse(s.vibro), true)
        else
          StepResult(s, BoundFeedback(s.vibro), true)
      case Down =>
        if s.count > 0 then
          StepResult(s.(pressed := true, count := s.count - 1), Pulse(s.vibro), true)
        else
          StepResult(s, BoundFeedback(s.vibro), true)
      case Back => StepResult(s, [], false)
      case Left | Right => StepResult(s, [], true))
    case Long =>
      (match ev.key
      case Back => StepResult(s.(count := 0), [], true)
      case Ok => StepResult(s.(vibro := !s.vibro), PulseCmds, true)
      case Left | Right | Up | Down => StepResult(s, [], true))
    case Press | Release | Repeat => StepResult(s, [], true)
  }

  /** The event loop over a queue: each event is handled in turn; after every
    * handled event except a short Back a redraw is requested; a short Back
    * ends the loop. `terminated` is false when the queue ran out first (the
    * real loop would then wait for more input). */
  function RunSpec(s: State, events: seq<InputEvent>): (r: RunOutcome)
    ensures r.consumed <= |events|
    ensures !r.terminated ==> r.consumed == |events|
    decreases |events|
  {
    if events == [] then RunOutcome(s, [], 0, false)
    else
      var st := Step(s, events[0]);
      if !st.processing then RunOutcome(st.state, st.trace, 1, true)
      else
        var rest := RunSpec(st.state, events[1..]);
        RunOutcome(rest.state, st.trace + [Redraw] + rest.trace, 1 + rest.consumed, rest.terminated)
  }

  /** Number of redraw requests in a trace. */
  function Redraws(trace: seq<Cmd>): nat
  {
    multiset(trace)[Redraw]
  }

  /** Short Up and short Ok: one more when below the bound (and the press
    * latch is set), unchanged with blink, hold and pulse at the bound. */
  lemma ShortIncrement(s: State, key: InputKey)
    requires key == Up || key == Ok
    ensures var r := Step(s, InputEvent(Short, key));
      r.processing &&
      (s.count < MAX_COUNT ==> r.state == State(s.count + 1, true, s.vibro) && r.trace == Pulse(s.vibro)) &&
      (s.count >= MAX_COUNT ==> r.state == s && r.trace == [Blink, Delay(200)] + Pulse(s.vibro))
  {
  }

  /** Short Down: one less when above zero, unchanged with blink, hold and
    * pulse at zero. */
  lemma ShortDecrement(s: State)
    ensures var r := Step(s, InputEvent(Short, Down));
      r.processing &&
      (s.count > 0 ==> r.state == State(s.count - 1, true, s.vibro) && r.trace == Pulse(s.vibro)) &&
      (s.count <= 0 ==> r.state == s && r.trace == [Blink, Delay(200)] + Pulse(s.vibro))
  {
  }

  /** Below the bound, a short Down undoes a short Up (apart from the latch). */
  lemma DecrementUndoesIncrement(s: State, key: InputKey)
    requires key == Up || key == Ok
    requires 0 <= s.count < MAX_COUNT
    ensures Step(Step(s, InputEvent(Short, key)).state, InputEvent(Short, Down)).state == s.(pressed := true)
  {
  }

  /** Long Back resets the count from any value, keeps the flag, gives no
    * feedback, and doing it twice is doing it once. */
  lemma LongBackResets(s: State)
    ensures var r := Step(s, InputEvent(Long, Back));
      r.processing && r.state == s.(count := 0) && r.trace == [] &&
      Step(r.state, InputEvent(Long, Back)) == r
  {
  }

  /** Long Ok flips the vibration flag, always acknowledges with a pulse
    * whatever the new value, leaves the count alone, and two in a row
    * restore the flag. */
  lemma LongOkToggles(s: State)
    ensures var r := Step(s, InputEvent(Long, Ok));
      r.processing && r.state == s.(vibro := !s.vibro) && r.trace == PulseCmds &&
      r.trace == Pulse(true) &&
      Step(r.state, InputEvent(Long, Ok)).state == s
  {
  }

  /** Short Back ends the loop with nothing changed and no feedback. */
  lemma ShortBackTerminates(s: State)
    ensures Step(s, InputEvent(Short, Back)) == StepResult(s, [], false)
  {
  }

  /** Short Left/Right and long Left/Right/Up/Down do nothing. */
  lemma NoOpKeys(s: State, ev: InputEvent)
    requires (ev.kind == Short && (ev.key == Left || ev.key == Right)) ||
             (ev.kind == Long && ev.key != Back && ev.key != Ok)
    ensures Step(s, ev) == StepResult(s, [], true)
  {
  }

  /** Range invariant: from a state in range, the count stays in [0, 9999]
    * after any sequence of events. */
  lemma {:induction false} RunInRange(s: State, events: seq<InputEvent>)
    requires InRange(s.count)
    ensures InRange(RunSpec(s, events).state.count)
    decreases |events|
  {
    if events != [] {
      var st := Step(s, events[0]);
      if st.processing {
        RunInRange(st.state, events[1..]);
      }
    }
  }

  /** Every state the render path can observe, the one after each prefix of
    * the queue, is in range when the loop starts from the initial record. */
  lemma EveryObservedStateInRange(pressed: bool, events: seq<InputEvent>, k: nat)
    requires k <= |events|
    ensures InRange(RunSpec(Init(pressed), events[..k]).state.count)
  {
    RunInRange(Init(pressed), events[..k]);
  }

  /** Exactly one redraw per handled event, except the terminating one. */
  lemma {:induction false} RunRedraws(s: State, events: seq<InputEvent>)
    ensures var r := RunSpec(s, events);
      Redraws(r.trace) == if r.terminated then r.consumed - 1 else r.consumed
    decreases |events|
  {
    if events != [] {
      var st := Step(s, events[0]);
      if st.processing {
        RunRedraws(st.state, events[1..]);
      }
    }
  }

  /** The loop stops at the first short Back: it consumes exactly the events
    * up to and including it, the state and trace are those of the events
    * before it, and no redraw follows it. */
  lemma {:induction false} RunStopsAtFirstBack(s: State, events: seq<InputEvent>, k: nat)
    requires k < |events| && IsShortBack(events[k])
    requires forall j :: 0 <= j < k ==> !IsShortBack(events[j])
    ensures var r := RunSpec(s, events);
      var before := RunSpec(s, events[..k]);
      r.terminated && r.consumed == k + 1 &&
      r.state == before.state && r.trace == before.trace
    decreases k
  {
    if k > 0 {
      var st := Step(s, events[0]);
      assert !IsShortBack(events[0]);
      assert events[1..][..k - 1] == events[..k][1..];
      RunStopsAtFirstBack(st.state, events[1..], k - 1);
    } else {
      assert events[..0] == [];
    }
  }

  /** Without a short Back every event is handled and none ends the loop. */
  lemma {:induction false} RunConsumesAll(s: State, events: seq<InputEvent>)
    requires forall j :: 0 <= j < |events| ==> !IsShortBack(events[j])
    ensures RunSpec(s, events).consumed == |events| && !RunSpec(s, events).terminated
    decreases |events|
  {
    if events != [] {
      RunConsumesAll(Step(s, events[0]).state, events[1..]);
    }
  }

  /** Events queued after the terminating short Back are never looked at. */
  lemma {:induction false} RunIgnoresRest(s: State, events: seq<InputEvent>, more: seq<InputEvent>)
    requires RunSpec(s, events).terminated
    ensures RunSpec(s, events + more) == RunSpec(s, events)
    decreases |events|
  {
    var st := Step(s, events[0]);
    assert (events + more)[0] == events[0];
    if st.processing {
      assert (events + more)[1..] == events[1..] + more;
      RunIgnoresRest(st.state, events[1..], more);
    }
  }

  /** n short Ups in a row. */
  function Ups(n: nat): (events: seq<InputEvent>)
    ensures |events| == n
    ensures forall i :: 0 <= i < n ==> events[i] == InputEvent(Short, Up)
  {
    if n == 0 then [] else [InputEvent(Short, Up)] + Ups(n - 1)
  }

  /** n short Downs in a row. */
  function Downs(n: nat): (events: seq<InputEvent>)
    ensures |events| == n
    ensures forall i :: 0 <= i < n ==> events[i] == InputEvent(Short, Down)
  {
    if n == 0 then [] else [InputEvent(Short, Down)] + Downs(n - 1)
  }

  /** Number of rejected presses (red blinks) in a trace. */
  function Blinks(trace: seq<Cmd>): nat
  {
    multiset(trace)[Blink]
  }

  /** n short Ups saturate at the upper bound: the count becomes
    * min(count + n, 9999), every Up past the bound is rejected with a
    * blink, and none of them ends the loop. */
  lemma {:induction false} RepeatedUpsSaturate(s: State, events: seq<InputEvent>)
    requires InRange(s.count)
    requires forall i :: 0 <= i < |events| ==> events[i] == InputEvent(Short, Up)
    ensures var n := |events|;
      var r := RunSpec(s, events);
      r.state.count == (if s.count + n <= MAX_COUNT then s.count + n else MAX_COUNT) &&
      r.state.vibro == s.vibro && !r.terminated &&
      Blinks(r.trace) == (if s.count + n <= MAX_COUNT then 0 else s.count + n - MAX_COUNT)
    decreases |events|
  {
    if events != [] {
      var st := Step(s, events[0]);
      RunUnfold(s, events);
      assert events[0] == InputEvent(Short, Up);
      assert st.state.count == (if s.count < MAX_COUNT then s.count + 1 else s.count);
      assert st.state.vibro == s.vibro;
      RepeatedUpsSaturate(st.state, events[1..]);
      CountAppend(st.trace + [Redraw], RunSpec(st.state, events[1..]).trace, Blink);
      CountAppend(st.trace, [Redraw], Blink);
      StepBlinks(s, events[0]);
    }
  }

  /** n short Downs saturate at zero: the count becomes max(count - n, 0)
    * and every Down below zero is rejected with a blink. */
  lemma {:induction false} RepeatedDownsSaturate(s: State, events: seq<InputEvent>)
    requires InRange(s.count)
    requires forall i :: 0 <= i < |events| ==> events[i] == InputEvent(Short, Down)
    ensures var n := |events|;
      var r := RunSpec(s, events);
      r.state.count == (if s.count >= n then s.count - n else 0) &&
      r.state.vibro == s.vibro && !r.terminated &&
      Blinks(r.trace) == (if s.count >= n then 0 else n - s.count)
    decreases |events|
  {
    if events != [] {
      var st := Step(s, events[0]);
      RunUnfold(s, events);
      assert events[0] == InputEvent(Short, Down);
      assert st.state.count == (if s.count > 0 then s.count - 1 else s.count);
      assert st.state.vibro == s.vibro;
      RepeatedDownsSaturate(st.state, events[1..]);
      CountAppend(st.trace + [Redraw], RunSpec(st.state, events[1..]).trace, Blink);
      CountAppend(st.trace, [Redraw], Blink);
      StepBlinks(s, events[0]);
    }
  }

  /** An Up or Down blinks once exactly when it is rejected at a bound. */
  lemma StepBlinks(s: State, ev: InputEvent)
    requires ev == InputEvent(Short, Up) || ev == InputEvent(Short, Down)
    ensures Blinks(Step(s, ev).trace) ==
      if (ev.key == Up && s.count >= MAX_COUNT) || (ev.key == Down && s.count <= 0) then 1 else 0
  {
    if (ev.key == Up && s.count >= MAX_COUNT) || (ev.key == Down && s.count <= 0) {
      CountAppend([Blink, Delay(BLINK_DELAY_MS)], Pulse(s.vibro), Blink);
    }
  }

  lemma CountAppend<T>(x: seq<T>, y: seq<T>, c: T)
    ensures multiset(x + y)[c] == multiset(x)[c] + multiset(y)[c]
  {
  }

  /** At the upper bound a short Up is rejected: the count stays at 9999
    * and the trace records the blink. */
  lemma UpAtBoundRejected(s: State)
    requires s.count == MAX_COUNT
    ensures var r := RunSpec(s, [InputEvent(Short, Up)]);
      r.state == s && r.trace == [Blink, Delay(200)] + Pulse(s.vibro) + [Redraw]
  {
  }

  /** From the initial record: three Ups give 3; five Downs then give 0,
    * two of them rejected; a long Back keeps 0; one more Up gives 1. */
  lemma ScenarioUpDownReset(pressed: bool)
    ensures var r3 := RunSpec(Init(pressed), Ups(3));
      var r8 := RunSpec(r3.state, Downs(5));
      var r10 := RunSpec(r8.state, [InputEvent(Long, Back), InputEvent(Short, Up)]);
      r3.state.count == 3 && Blinks(r3.trace) == 0 &&
      r8.state.count == 0 && Blinks(r8.trace) == 2 &&
      Step(r8.state, InputEvent(Long, Back)).state.count == 0 &&
      r10.state.count == 1 && !r10.terminated
  {
    var ups, downs := Ups(3), Downs(5);
    RepeatedUpsSaturate(Init(pressed), ups);
    var r3 := RunSpec(Init(pressed), ups);
    assert |ups| == 3 && r3.state.count == 3;
    RepeatedDownsSaturate(r3.state, downs);
    ResetThenUp(RunSpec(r3.state, downs).state);
  }

  /** After a long Back, one short Up leaves the count at 1, whatever it was. */
  lemma ResetThenUp(s: State)
    ensures Step(s, InputEvent(Long, Back)).state.count == 0
    ensures var r := RunSpec(s, [InputEvent(Long, Back), InputEvent(Short, Up)]);
      r.state.count == 1 && !r.terminated && r.consumed == 2
  {
    var events := [InputEvent(Long, Back), InputEvent(Short, Up)];
    var st := Step(s, events[0]);
    RunUnfold(s, events);
    assert events[1..] == [InputEvent(Short, Up)];
    RunUnfold(st.state, events[1..]);
    assert events[1..][1..] == [];
  }

  /** Reaching 9999 from zero takes 9999 Ups; one more is rejected with a
    * blink and leaves 9999. */
  lemma ScenarioUpperBound(pressed: bool)
    ensures var r := RunSpec(Init(pressed), Ups(MAX_COUNT));
      r.state.count == MAX_COUNT && Blinks(r.trace) == 0 &&
      var r' := RunSpec(Init(pressed), Ups(MAX_COUNT + 1));
      r'.state.count == MAX_COUNT && Blinks(r'.trace) == 1
  {
    RepeatedUpsSaturate(Init(pressed), Ups(MAX_COUNT));
    RepeatedUpsSaturate(Init(pressed), Ups(MAX_COUNT + 1));
  }

  /** With vibration on, an Up pulses; after toggling it off, an Up does
    * not, while each toggle still acknowledges with its own pulse. */
  lemma ScenarioVibration(pressed: bool)
    ensures var s1 := Step(Init(pressed), InputEvent(Long, Ok));
      s1.trace == PulseCmds && s1.state.vibro &&
      Step(s1.state, InputEvent(Short, Up)).trace == PulseCmds &&
      var s2 := Step(Step(s1.state, InputEvent(Short, Up)).state, InputEvent(Long, Ok));
      s2.trace == PulseCmds && !s2.state.vibro &&
      Step(s2.state, InputEvent(Short, Up)).trace == []
  {
  }

  /** Running two queues one after the other is running their concatenation,
    * as long as the first does not end the loop. */
  lemma {:induction false} RunAppend(s: State, a: seq<InputEvent>, b: seq<InputEvent>)
    requires !RunSpec(s, a).terminated
    ensures var ra := RunSpec(s, a);
      var rb := RunSpec(ra.state, b);
      RunSpec(s, a + b) == RunOutcome(rb.state, ra.trace + rb.trace, |a| + rb.consumed, rb.terminated)
    decreases |a|
  {
    if a == [] {
      assert a + b == b;
    } else {
      var st := Step(s, a[0]);
      assert (a + b)[0] == a[0];
      assert (a + b)[1..] == a[1..] + b;
      RunUnfold(s, a);
      RunUnfold(s, a + b);
      RunAppend(st.state, a[1..], b);
      var ra' := RunSpec(st.state, a[1..]);
      AppendAssoc(st.trace + [Redraw], ra'.trace, RunSpec(ra'.state, b).trace);
    }
  }

  lemma AppendAssoc<T>(x: seq<T>, y: seq<T>, z: seq<T>)
    ensures x + (y + z) == (x + y) + z
  {
  }

  /** One unfolding of the loop on a non-empty queue. */
  lemma RunUnfold(s: State, events: seq<InputEvent>)
    requires events != []
    ensures var st := Step(s, events[0]);
      var rest := RunSpec(st.state, events[1..]);
      (st.processing ==>
        RunSpec(s, events) == RunOutcome(rest.state, st.trace + [Redraw] + rest.trace, 1 + rest.consumed, rest.terminated)) &&
      (!st.processing ==> RunSpec(s, events) == RunOutcome(st.state, st.trace, 1, true))
  {
  }

  /** A loop that stopped did so on a short Back, and on the first one. */
  lemma {:induction false} RunEndsOnShortBack(s: State, events: seq<InputEvent>)
    requires RunSpec(s, events).terminated
    ensures var k := RunSpec(s, events).consumed - 1;
      0 <= k < |events| && IsShortBack(events[k]) &&
      forall j :: 0 <= j < k ==> !IsShortBack(events[j])
    decreases |events|
  {
    var st := Step(s, events[0]);
    if st.processing {
      RunEndsOnShortBack(st.state, events[1..]);
      var k' := RunSpec(st.state, events[1..]).consumed - 1;
      assert forall j :: 1 <= j < k' + 1 ==> events[j] == events[1..][j - 1];
    }
  }
}
