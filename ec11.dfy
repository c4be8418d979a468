/**
 * The EC11 rotary encoder task. Every edge on channel A samples both
 * channels ten times; a falling edge records the direction from channel B
 * and the following rising edge confirms it with a wheel event. Presses of
 * the encoder's push button are handed to `key_detection` as key 5.
 */
module Ec11 {
  import opened Wrappers
  import opened Event

  const PUSH_KEY: nat := 5

  datatype WheelDirection = Front | Back | NoState

  /** What the decoder task wakes up for: an edge on A with both channels' samples, or a press of the push key with its readings. */
  datatype Ec11Input = AEdge(a: Samples, b: Samples) | KeyEdge(readings: seq<Reading>)

  /** Neither pressed nor released: the reading is ignored. */
  predicate Ambiguous(s: Samples) {
    !IsPressed(s) && !IsReleased(s)
  }

  predicate IsWheel(e: EventType) {
    e == WheelFront || e == WheelBack
  }

  /** One edge on channel A: the new recorded direction and the event emitted, if any. */
  function EdgeStep(state: WheelDirection, a: Samples, b: Samples): (r: (WheelDirection, Option<EventType>))
    ensures Ambiguous(a) || Ambiguous(b) ==> r == (state, None)
    ensures !Ambiguous(b) && IsPressed(a) ==> r == (if IsPressed(b) then Front else Back, None)
    ensures !Ambiguous(b) && IsReleased(a) ==> r.0 == NoState
    ensures !Ambiguous(b) && IsReleased(a) ==>
      (r.1 == Some(WheelFront) <==> IsReleased(b) && state == Front) &&
      (r.1 == Some(WheelBack) <==> IsPressed(b) && state == Back)
    ensures r.1.Some? ==> IsWheel(r.1.value)
  {
    PressedNotReleased(a);
    PressedNotReleased(b);
    if Ambiguous(a) || Ambiguous(b) then (state, None)
    else if IsPressed(a) then (if IsPressed(b) then Front else Back, None)
    else if !IsPressed(b) then (NoState, if state == Front then Some(WheelFront) else None)
    else (NoState, if state == Back then Some(WheelBack) else None)
  }

  /** The decoder task's recorded direction and the events it emits over a sequence of inputs. */
  function Ec11Run(state: WheelDirection, inputs: seq<Ec11Input>): (seq<EventType>, WheelDirection)
    decreases |inputs|
  {
    if inputs == [] then ([], state)
    else match inputs[0]
      case AEdge(a, b) =>
        var (next, event) := EdgeStep(state, a, b);
        var rest := Ec11Run(next, inputs[1..]);
        ((if event.Some? then [event.value] else []) + rest.0, rest.1)
      case KeyEdge(rs) =>
        var rest := Ec11Run(state, inputs[1..]);
        (KeyDetect(PUSH_KEY, false, rs).events + rest.0, rest.1)
  }

  function WheelCount(es: seq<EventType>): nat {
    if es == [] then 0 else (if IsWheel(es[0]) then 1 else 0) + WheelCount(es[1..])
  }

  function EdgeCount(inputs: seq<Ec11Input>): nat {
    if inputs == [] then 0 else (if inputs[0].AEdge? then 1 else 0) + EdgeCount(inputs[1..])
  }

  lemma {:induction false} WheelCountConcat(a: seq<EventType>, b: seq<EventType>)
    ensures WheelCount(a + b) == WheelCount(a) + WheelCount(b)
    decreases |a|
  {
    if a == [] {
      assert a + b == b;
    } else {
      assert (a + b)[1..] == a[1..] + b;
      WheelCountConcat(a[1..], b);
    }
  }

  /** The push key's events are never wheel events. */
  lemma {:induction false} KeyEventsNotWheel(es: seq<EventType>)
    requires forall i :: 0 <= i < |es| ==> !IsWheel(es[i])
    ensures WheelCount(es) == 0
    decreases |es|
  {
    if es != [] {
      KeyEventsNotWheel(es[1..]);
    }
  }

  lemma PressNotWheel(rs: seq<Reading>)
    ensures WheelCount(KeyDetect(PUSH_KEY, false, rs).events) == 0
  {
    var d := KeyDetect(PUSH_KEY, false, rs);
    KeyDetectShape(PUSH_KEY, rs);
    assert forall i :: 0 <= i < |d.events| ==> !IsWheel(d.events[i]) by {
      if d.events != [] && d.events[0] == KeyLongStart(PUSH_KEY) {
        forall i | 0 < i < |d.events| ensures !IsWheel(d.events[i]) {
          assert d.events[i] == d.events[1..][i - 1];
        }
      }
    }
    KeyEventsNotWheel(d.events);
  }

  /** At most one wheel event per edge on channel A. */
  lemma {:induction false} WheelEventsPerEdge(state: WheelDirection, inputs: seq<Ec11Input>)
    ensures WheelCount(Ec11Run(state, inputs).0) <= EdgeCount(inputs)
    decreases |inputs|
  {
    if inputs != [] {
      match inputs[0]
      case AEdge(a, b) =>
        var (next, event) := EdgeStep(state, a, b);
        WheelEventsPerEdge(next, inputs[1..]);
        WheelCountConcat(if event.Some? then [event.value] else [], Ec11Run(next, inputs[1..]).0);
      case KeyEdge(rs) =>
        WheelEventsPerEdge(state, inputs[1..]);
        PressNotWheel(rs);
        WheelCountConcat(KeyDetect(PUSH_KEY, false, rs).events, Ec11Run(state, inputs[1..]).0);
    }
  }

  /** A detent forwards: A falls while B is low, then A rises while B is high. */
  lemma ForwardDetent(state: WheelDirection, down: Samples, up: Samples)
    requires IsPressed(down) && IsReleased(up)
    ensures EdgeStep(state, down, down) == (Front, None)
    ensures EdgeStep(EdgeStep(state, down, down).0, up, up) == (NoState, Some(WheelFront))
    ensures EdgeStep(EdgeStep(state, down, up).0, up, down) == (NoState, Some(WheelBack))
  {
    PressedNotReleased(down);
    PressedNotReleased(up);
  }

  /** The handling of one edge on A: sample both channels, debounce, then record or confirm. */
  method DecodeEdge(beginState: WheelDirection, a: Samples, b: Samples) returns (next: WheelDirection, event: Option<EventType>)
    ensures (next, event) == EdgeStep(beginState, a, b)
  {
    next, event := beginState, None;
    var aLow := CountLow(a);
    var bLow := CountLow(b);
    var aDown := false;
    var bDown := false;
    if aLow > JUDGE_TIMES {
      aDown := true;
    } else if aLow < SAMPLE_TIMES - JUDGE_TIMES {
      aDown := false;
    } else {
      return;
    }
    if bLow > JUDGE_TIMES {
      bDown := true;
    } else if bLow < SAMPLE_TIMES - JUDGE_TIMES {
      bDown := false;
    } else {
      return;
    }
    if aDown {
      next := if bDown then Front else Back;
    } else {
      if !bDown {
        if beginState == Front {
          event := Some(WheelFront);
        }
      } else {
        if beginState == Back {
          event := Some(WheelBack);
        }
      }
      next := NoState;
    }
  }

  /** The encoder task over `inputs`, with its `begin_state` variable. */
  method Ec11Task(inputs: seq<Ec11Input>) returns (events: seq<EventType>, beginState: WheelDirection)
    ensures events == Ec11Run(NoState, inputs).0
    ensures beginState == Ec11Run(NoState, inputs).1
  {
    events := [];
    beginState := NoState;
    var k := 0;
    assert inputs[k..] == inputs;
    while k < |inputs|
      invariant 0 <= k <= |inputs|
      invariant Ec11Run(NoState, inputs).0 == events + Ec11Run(beginState, inputs[k..]).0
      invariant Ec11Run(NoState, inputs).1 == Ec11Run(beginState, inputs[k..]).1
    {
      assert inputs[k..][1..] == inputs[k + 1..];
      ghost var run := Ec11Run(beginState, inputs[k..]);
      var out: seq<EventType>;
      match inputs[k] {
        case AEdge(a, b) =>
          var event;
          beginState, event := DecodeEdge(beginState, a, b);
          out := if event.Some? then [event.value] else [];
        case KeyEdge(rs) =>
          var d := KeyDetection(PUSH_KEY, rs);
          out := d.events;
      }
      assert run == (out + Ec11Run(beginState, inputs[k + 1..]).0, Ec11Run(beginState, inputs[k + 1..]).1);
      assert events + (out + Ec11Run(beginState, inputs[k + 1..]).0) == (events + out) + Ec11Run(beginState, inputs[k + 1..]).0;
      events := events + out;
      k := k + 1;
    }
    assert inputs[k..] == [];
    assert events + [] == events;
  }
}
