// The application record and its event loop, as the program runs them:
// the record's fields are updated in place by each handled event.
module App {
  import opened Input
  import opened Machine
  import Decimal

  class Counter {
    var count: int
    var pressed: bool
    var vibro: bool

    /** The record's fields as a value. */
    function Snapshot(): State
      reads this
    {
      State(count, pressed, vibro)
    }

    ghost predicate Valid()
      reads this
    {
      InRange(count)
    }

    /** init(): count 0 and vibration off. The allocation leaves `pressed`
      * indeterminate, so its initial value is a parameter. */
    constructor (pressed0: bool)
      ensures Snapshot() == Init(pressed0) && Valid()
    {
      count := 0;
      vibro := false;
      pressed := pressed0;
    }

    /** The pulse helper: on, hold 20 ms, off, only when vibration is on. */
    method Vibro() returns (cmds: seq<Cmd>)
      ensures cmds == Pulse(vibro)
    {
      cmds := [];
      if vibro {
        cmds := [VibroOn, Delay(VIBRO_TIME_MS), VibroOff];
      }
    }

    /** The body of the event loop for one dequeued event: the switch on
      * type and key. `processing` is cleared by a short Back. */
    method HandleEvent(ev: InputEvent) returns (trace: seq<Cmd>, processing: bool)
      modifies this
      ensures StepResult(Snapshot(), trace, processing) == Step(old(Snapshot()), ev)
      ensures old(Valid()) ==> Valid()
    {
      trace, processing := [], true;
      if ev.kind == Short {
        match ev.key {
          case Up | Ok =>
            if count < MAX_COUNT {
              pressed := true;
              count := count + 1;
              trace := Vibro();
            } else {
              var pulse := Vibro();
              trace := [Blink, Delay(BLINK_DELAY_MS)] + pulse;
            }
          case Down =>
            if count > 0 {
              pressed := true;
              count := count - 1;
              trace := Vibro();
            } else {
              var pulse := Vibro();
              trace := [Blink, Delay(BLINK_DELAY_MS)] + pulse;
            }
          case Back =>
            processing := false;
          case Left | Right =>
        }
      } else if ev.kind == Long {
        match ev.key {
          case Back =>
            count := 0;
          case Ok =>
            vibro := !vibro;
            trace := [VibroOn, Delay(VIBRO_TIME_MS), VibroOff];
          case Left | Right | Up | Down =>
        }
      }
    }

    /** The event loop: handle queued events in order, request a redraw
      * after each one unless it ended the loop, and stop at the first
      * short Back. */
    method Run(events: seq<InputEvent>) returns (trace: seq<Cmd>, consumed: nat, terminated: bool)
      modifies this
      ensures RunOutcome(Snapshot(), trace, consumed, terminated) == RunSpec(old(Snapshot()), events)
      ensures old(Valid()) ==> Valid()
    {
      trace, consumed, terminated := [], 0, false;
      ghost var start := Snapshot();
      while consumed < |events|
        invariant consumed <= |events|
        invariant old(Valid()) ==> Valid()
        invariant var rest := RunSpec(Snapshot(), events[consumed..]);
          RunSpec(start, events) == RunOutcome(rest.state, trace + rest.trace, consumed + rest.consumed, rest.terminated)
      {
        ghost var before := Snapshot();
        ghost var pending := events[consumed..];
        var t, processing := HandleEvent(events[consumed]);
        RunUnfold(before, pending);
        assert pending[1..] == events[consumed + 1..];
        consumed := consumed + 1;
        if !processing {
          trace := trace + t;
          terminated := true;
          break;
        }
        AppendAssoc(trace, t + [Redraw], RunSpec(Snapshot(), events[consumed..]).trace);
        trace := trace + t + [Redraw];
      }
    }

    /** The render callback's text: the count formatted as "%d" into the
      * 8-byte buffer. While the record is valid, that is exactly the
      * count's decimal digits. */
    method Render() returns (text: string)
      ensures text == Decimal.RenderText(count)
      ensures Valid() ==> text == Decimal.Digits(count) && Decimal.AllDigits(text) && Decimal.Value(text) == count
    {
      text := Decimal.Snprintf(Decimal.SCOUNT_SIZE, Decimal.FormatDecimal(count));
      if Valid() {
        Decimal.RenderExact(count);
      }
    }
  }

  /** The application: initialise the record, let the input callback queue
    * the host's events, run the loop, and return 0. */
  method CounterApp(raw: seq<InputEvent>, pressed0: bool)
    returns (status: int, final: State, trace: seq<Cmd>, consumed: nat, terminated: bool)
    ensures RunOutcome(final, trace, consumed, terminated) == RunSpec(Init(pressed0), Enqueued(raw))
    ensures InRange(final.count)
    ensures status == 0
  {
    var c := new Counter(pressed0);
    var queue := Enqueued(raw);
    trace, consumed, terminated := c.Run(queue);
    final := c.Snapshot();
    RunInRange(Init(pressed0), queue);
    status := 0;
  }
}
