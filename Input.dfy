// Input events as the host delivers them, and the input callback that
// forwards only short and long presses into the application's queue.
module Input {

  /** The kinds of input event the host can report for a button. */
  datatype InputType = Press | Release | Short | Long | Repeat

  /** The six buttons of the device. */
  datatype InputKey = Up | Down | Right | Left | Ok | Back

  datatype InputEvent = InputEvent(kind: InputType, key: InputKey)

  /** The input callback's filter: only short and long presses are queued. */
  predicate Forwarded(ev: InputEvent)
  {
    ev.kind == Short || ev.kind == Long
  }

  /** One call of the input callback: the event is appended to the queue
    * when it is a short or long press, and dropped otherwise. */
  function InputCallback(queue: seq<InputEvent>, ev: InputEvent): (q: seq<InputEvent>)
    ensures queue <= q
    ensures |q| == |queue| + 1 <==> Forwarded(ev)
    ensures !Forwarded(ev) <==> q == queue
    ensures |q| > |queue| ==> q[|queue|] == ev
  {
    if Forwarded(ev) then queue + [ev] else queue
  }

  /** The queue contents after the callback has seen every event of `raw`,
    * in order, starting from an empty queue. */
  function Enqueued(raw: seq<InputEvent>): (q: seq<InputEvent>)
    ensures |q| <= |raw|
    ensures forall i :: 0 <= i < |q| ==> Forwarded(q[i])
    ensures forall i :: 0 <= i < |q| ==> q[i] in raw
  {
    if raw == [] then [] else InputCallback(Enqueued(raw[..|raw| - 1]), raw[|raw| - 1])
  }

  /** Feeding two bursts of events one after the other queues the
    * forwarded events of each, in order. */
  lemma {:induction false} EnqueuedAppend(a: seq<InputEvent>, b: seq<InputEvent>)
    ensures Enqueued(a + b) == Enqueued(a) + Enqueued(b)
    decreases |b|
  {
    if b == [] {
      assert a + b == a;
    } else {
      var b' := b[..|b| - 1];
      assert (a + b)[..|a + b| - 1] == a + b';
      assert (a + b)[|a + b| - 1] == b[|b| - 1];
      EnqueuedAppend(a, b');
    }
  }

  /** Every short or long press of the raw stream reaches the queue. */
  lemma {:induction false} ForwardedEventsQueued(raw: seq<InputEvent>, i: nat)
    requires i < |raw| && Forwarded(raw[i])
    ensures raw[i] in Enqueued(raw)
    decreases |raw|
  {
    if i < |raw| - 1 {
      ForwardedEventsQueued(raw[..|raw| - 1], i);
    }
  }

  /** A queue holds only short and long presses, so passing it through the
    * filter again changes nothing. */
  lemma {:induction false} EnqueuedIdempotent(raw: seq<InputEvent>)
    ensures Enqueued(Enqueued(raw)) == Enqueued(raw)
  {
    AllForwardedKept(Enqueued(raw));
  }

  lemma {:induction false} AllForwardedKept(q: seq<InputEvent>)
    requires forall i :: 0 <= i < |q| ==> Forwarded(q[i])
    ensures Enqueued(q) == q
    decreases |q|
  {
    if q != [] {
      AllForwardedKept(q[..|q| - 1]);
      assert q[..|q| - 1] + [q[|q| - 1]] == q;
    }
  }
}
