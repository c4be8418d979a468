/**
 * Input events: the global listener table that pages register callbacks
 * in, and `key_detection`, which turns the debounced level of one key into
 * short, double and long-press events.
 */
module Event {
  import opened Wrappers
  import opened Heapless

  const LISTENER_CAPACITY: nat := 20
  /** Samples taken per reading, and how many of them must agree. */
  const SAMPLE_TIMES: nat := 10
  const JUDGE_TIMES: nat := 8
  /** A press held longer than this is a long press. */
  const LONG_PRESS_MS: nat := 500
  /** A second press within this time from the first press is a double click. */
  const DOUBLE_CLICK_MS: nat := 400

  datatype EventType =
    | KeyShort(key: nat)
    | KeyLongStart(key: nat)
    | KeyLongIng(key: nat)
    | KeyLongEnd(key: nat)
    | KeyDouble(key: nat)
    | WheelBack
    | WheelFront

  /** A registered callback (named by an identifier), its event, its optional target and whether it is resident. */
  datatype Listener = Listener(callback: nat, eventType: EventType, target: Option<nat>, fixed: bool)

  /** One invocation made by `toggle_event`: the callback and the target passed to it. */
  datatype Call = Call(callback: nat, target: Option<nat>)

  /** The position of the most recently registered listener of type `t`. */
  function LastIndexOf(ls: seq<Listener>, t: EventType): (r: Option<nat>)
    ensures r.Some? ==> r.value < |ls| && ls[r.value].eventType == t
    ensures r.Some? ==> forall j :: r.value < j < |ls| ==> ls[j].eventType != t
    ensures r.None? <==> forall j :: 0 <= j < |ls| ==> ls[j].eventType != t
  {
    if ls == [] then None
    else if ls[|ls| - 1].eventType == t then Some(|ls| - 1)
    else LastIndexOf(ls[..|ls| - 1], t)
  }

  lemma LastIndexOfStep(ls: seq<Listener>, t: EventType, i: nat)
    requires i < |ls|
    ensures LastIndexOf(ls[..i + 1], t) == if ls[i].eventType == t then Some(i) else LastIndexOf(ls[..i], t)
  {
    assert ls[..i + 1][..i] == ls[..i];
  }

  /** The table after `un(t)`: the last listener of type `t` removed, if there is one. */
  function Unregister(ls: seq<Listener>, t: EventType): (r: seq<Listener>)
    ensures LastIndexOf(ls, t).None? ==> r == ls
    ensures LastIndexOf(ls, t).Some? ==> |r| == |ls| - 1
  {
    match LastIndexOf(ls, t)
    case None => ls
    case Some(i) => ls[..i] + ls[i + 1..]
  }

  /** The calls `toggle_event(t)` makes: every listener of type `t`, in registration order. */
  function Dispatch(ls: seq<Listener>, t: EventType): (r: seq<Call>)
    ensures |r| <= |ls|
  {
    if ls == [] then []
    else Dispatch(ls[..|ls| - 1], t) + (if ls[|ls| - 1].eventType == t then [Call(ls[|ls| - 1].callback, ls[|ls| - 1].target)] else [])
  }

  /** The calls of a concatenated table are those of its parts, in order. */
  lemma {:induction false} DispatchConcat(a: seq<Listener>, b: seq<Listener>, t: EventType)
    ensures Dispatch(a + b, t) == Dispatch(a, t) + Dispatch(b, t)
    decreases |b|
  {
    if b == [] {
      assert a + b == a;
    } else {
      assert (a + b)[..|a + b| - 1] == a + b[..|b| - 1];
      DispatchConcat(a, b[..|b| - 1], t);
    }
  }

  /** A registration while there is room is dispatched last among its type. */
  lemma RegisterDispatchedLast(ls: seq<Listener>, l: Listener, t: EventType)
    requires |ls| < LISTENER_CAPACITY
    ensures Dispatch(PushBounded(ls, l, LISTENER_CAPACITY), t) ==
      Dispatch(ls, t) + (if l.eventType == t then [Call(l.callback, l.target)] else [])
  {
    assert (ls + [l])[..|ls + [l]| - 1] == ls;
  }

  /** A table without listeners of type `t` dispatches nothing for it. */
  lemma {:induction false} DispatchNone(ls: seq<Listener>, t: EventType)
    requires forall j :: 0 <= j < |ls| ==> ls[j].eventType != t
    ensures Dispatch(ls, t) == []
  {
    if ls != [] {
      DispatchNone(ls[..|ls| - 1], t);
    }
  }

  lemma DispatchOne(x: Listener, t: EventType)
    ensures Dispatch([x], t) == if x.eventType == t then [Call(x.callback, x.target)] else []
  {
    assert [x][..0] == [];
  }

  /** Removing the listener at `i` removes its call, if any, from the dispatch of any type. */
  lemma DispatchRemove(ls: seq<Listener>, i: nat, u: EventType)
    requires i < |ls|
    ensures Dispatch(ls, u) == Dispatch(ls[..i], u) + Dispatch([ls[i]], u) + Dispatch(ls[i + 1..], u)
    ensures Dispatch(ls[..i] + ls[i + 1..], u) == Dispatch(ls[..i], u) + Dispatch(ls[i + 1..], u)
  {
    var a, x, c := ls[..i], ls[i], ls[i + 1..];
    assert ls == (a + [x]) + c;
    DispatchConcat(a + [x], c, u);
    DispatchConcat(a, [x], u);
    DispatchConcat(a, c, u);
  }

  /** `un(t)` leaves the dispatch of every other type unchanged. */
  lemma UnregisterKeepsOthers(ls: seq<Listener>, t: EventType, u: EventType)
    requires u != t
    ensures Dispatch(Unregister(ls, t), u) == Dispatch(ls, u)
  {
    var r := LastIndexOf(ls, t);
    if r.Some? {
      var i := r.value;
      assert Unregister(ls, t) == ls[..i] + ls[i + 1..];
      DispatchRemove(ls, i, u);
      DispatchOne(ls[i], u);
    }
  }

  /** `un(t)` drops exactly the last call of type `t` and keeps the earlier ones in order. */
  lemma UnregisterDropsLast(ls: seq<Listener>, t: EventType)
    ensures var d := Dispatch(ls, t);
      Dispatch(Unregister(ls, t), t) == if d == [] then [] else d[..|d| - 1]
  {
    var r := LastIndexOf(ls, t);
    if r.Some? {
      var i := r.value;
      assert Unregister(ls, t) == ls[..i] + ls[i + 1..];
      DispatchRemove(ls, i, t);
      NoneAfterLast(ls, t, i);
      DispatchOne(ls[i], t);
      var a := Dispatch(ls[..i], t);
      var d := a + [Call(ls[i].callback, ls[i].target)];
      assert Dispatch(ls, t) == d;
      assert d[..|d| - 1] == a;
    } else {
      DispatchNone(ls, t);
    }
  }

  /** Nothing after the last listener of type `t` is called for `t`. */
  lemma NoneAfterLast(ls: seq<Listener>, t: EventType, i: nat)
    requires LastIndexOf(ls, t) == Some(i)
    ensures Dispatch(ls[i + 1..], t) == []
  {
    var c := ls[i + 1..];
    forall j | 0 <= j < |c| ensures c[j].eventType != t {
      assert c[j] == ls[i + 1 + j];
    }
    DispatchNone(c, t);
  }

  /** Registering then unregistering the same type restores the table. */
  lemma RegisterThenUnregister(ls: seq<Listener>, l: Listener)
    requires |ls| < LISTENER_CAPACITY
    ensures Unregister(PushBounded(ls, l, LISTENER_CAPACITY), l.eventType) == ls
  {
    var ext := ls + [l];
    assert ext[..|ext| - 1] == ls;
  }

  /** The global listener table. */
  class EventBus {
    var listeners: seq<Listener>

    ghost predicate Valid()
      reads this
    {
      |listeners| <= LISTENER_CAPACITY
    }

    constructor ()
      ensures Valid() && listeners == []
    {
      listeners := [];
    }

    method Register(l: Listener)
      requires Valid()
      modifies this
      ensures Valid()
      ensures listeners == PushBounded(old(listeners), l, LISTENER_CAPACITY)
    {
      if |listeners| < LISTENER_CAPACITY {
        listeners := listeners + [l];
      }
    }

    /** `on`: a listener without target. */
    method On(t: EventType, callback: nat)
      requires Valid()
      modifies this
      ensures Valid()
      ensures listeners == PushBounded(old(listeners), Listener(callback, t, None, false), LISTENER_CAPACITY)
    {
      Register(Listener(callback, t, None, false));
    }

    /** `on_target`: a listener that is passed `target`. */
    method OnTarget(t: EventType, target: nat, callback: nat)
      requires Valid()
      modifies this
      ensures Valid()
      ensures listeners == PushBounded(old(listeners), Listener(callback, t, Some(target), false), LISTENER_CAPACITY)
    {
      Register(Listener(callback, t, Some(target), false));
    }

    /** `on_fixed`: a resident listener; `clear` removes it all the same. */
    method OnFixed(t: EventType, target: nat, callback: nat)
      requires Valid()
      modifies this
      ensures Valid()
      ensures listeners == PushBounded(old(listeners), Listener(callback, t, Some(target), true), LISTENER_CAPACITY)
    {
      Register(Listener(callback, t, Some(target), true));
    }

    /** `un`: scans the whole table for the last listener of type `t` and removes it. */
    method Un(t: EventType)
      requires Valid()
      modifies this
      ensures Valid()
      ensures listeners == Unregister(old(listeners), t)
    {
      var ls := listeners;
      var found: Option<nat> := None;
      var i := 0;
      while i < |ls|
        invariant 0 <= i <= |ls| && listeners == ls
        invariant found == LastIndexOf(ls[..i], t)
      {
        LastIndexOfStep(ls, t, i);
        if ls[i].eventType == t {
          found := Some(i);
        }
        i := i + 1;
      }
      assert ls[..i] == ls;
      assert found == LastIndexOf(ls, t);
      if found.Some? {
        listeners := ls[..found.value] + ls[found.value + 1..];
      }
    }

    /** `clear` */
    method Clear()
      modifies this
      ensures Valid() && listeners == []
    {
      listeners := [];
    }

    /** `toggle_event`: the calls made, in order. */
    method ToggleEvent(t: EventType) returns (calls: seq<Call>)
      ensures calls == Dispatch(listeners, t)
    {
      calls := [];
      var i := 0;
      while i < |listeners|
        invariant 0 <= i <= |listeners|
        invariant calls == Dispatch(listeners[..i], t)
      {
        assert listeners[..i + 1][..i] == listeners[..i];
        if listeners[i].eventType == t {
          calls := calls + [Call(listeners[i].callback, listeners[i].target)];
        }
        i := i + 1;
      }
      assert listeners[..i] == listeners;
    }
  }

  // ---------------------------------------------------------------------------
  // key_detection

  /** The ten samples of one reading; `true` is a low (pressed) sample. */
  type Samples = s: seq<bool> | |s| == SAMPLE_TIMES witness [false, false, false, false, false, false, false, false, false, false]

  function LowCount(s: seq<bool>): (n: nat)
    ensures n <= |s|
  {
    if s == [] then 0 else LowCount(s[..|s| - 1]) + (if s[|s| - 1] then 1 else 0)
  }

  /** The sampling loop: counts the low samples. */
  method CountLow(s: Samples) returns (n: nat)
    ensures n == LowCount(s)
  {
    n := 0;
    for i := 0 to SAMPLE_TIMES
      invariant n == LowCount(s[..i])
    {
      assert s[..i + 1][..i] == s[..i];
      if s[i] {
        n := n + 1;
      }
    }
    assert s[..SAMPLE_TIMES] == s;
  }

  /** Pressed when more than eight samples are low. */
  predicate IsPressed(s: Samples) {
    LowCount(s) > JUDGE_TIMES
  }

  /** Released when fewer than two samples are low. */
  predicate IsReleased(s: Samples) {
    LowCount(s) < SAMPLE_TIMES - JUDGE_TIMES
  }

  /** A reading's verdict is unambiguous at opposite ends and never both. */
  lemma PressedNotReleased(s: Samples)
    ensures !(IsPressed(s) && IsReleased(s))
    ensures (forall i :: 0 <= i < |s| ==> s[i]) ==> IsPressed(s)
    ensures (forall i :: 0 <= i < |s| ==> !s[i]) ==> IsReleased(s)
  {
    AllCount(s, true);
    AllCount(s, false);
  }

  lemma {:induction false} AllCount(s: seq<bool>, b: bool)
    ensures (forall i :: 0 <= i < |s| ==> s[i] == b) ==> LowCount(s) == if b then |s| else 0
  {
    if s != [] && forall i :: 0 <= i < |s| ==> s[i] == b {
      AllCount(s[..|s| - 1], b);
    }
  }

  /** One reading: when it was taken, in milliseconds since the key went down, and its samples. */
  datatype Reading = Reading(at: nat, samples: Samples)

  /** The events emitted and whether `key_detection` returned. */
  datatype Detection = Detection(events: seq<EventType>, done: bool)

  function Prepend(e: seq<EventType>, d: Detection): Detection {
    Detection(e + d.events, d.done)
  }

  /**
   * The wait after a short release: a KeyShort once 400 ms have passed since
   * the press, a KeyDouble if a pressed reading comes first.
   */
  function AfterShortRelease(key: nat, rs: seq<Reading>): (d: Detection)
    ensures d.done <==> d.events != []
    ensures d.events == [] || d.events == [KeyShort(key)] || d.events == [KeyDouble(key)]
  {
    if rs == [] then Detection([], false)
    else if rs[0].at > DOUBLE_CLICK_MS then Detection([KeyShort(key)], true)
    else if IsPressed(rs[0].samples) then Detection([KeyDouble(key)], true)
    else AfterShortRelease(key, rs[1..])
  }

  /** `key_detection` over a sequence of readings; `isLong` records that KeyLongStart was emitted. */
  function KeyDetect(key: nat, isLong: bool, rs: seq<Reading>): Detection
    decreases |rs|
  {
    if rs == [] then Detection([], false)
    else if IsPressed(rs[0].samples) then
      if rs[0].at > LONG_PRESS_MS then
        Prepend([if isLong then KeyLongIng(key) else KeyLongStart(key)], KeyDetect(key, true, rs[1..]))
      else KeyDetect(key, isLong, rs[1..])
    else if IsReleased(rs[0].samples) then
      if isLong then Detection([KeyLongEnd(key)], true) else AfterShortRelease(key, rs[1..])
    else KeyDetect(key, isLong, rs[1..])
  }

  /** The events of a long press: KeyLongIng repeated, then possibly one KeyLongEnd, which ends detection. */
  predicate LongTail(key: nat, es: seq<EventType>, done: bool) {
    (forall i :: 0 <= i < |es| ==> es[i] == KeyLongIng(key) || (i == |es| - 1 && es[i] == KeyLongEnd(key)))
    && (done <==> es != [] && es[|es| - 1] == KeyLongEnd(key))
  }

  /** A pressed reading taken more than 500 ms after the key went down. */
  predicate IsLongReading(r: Reading) {
    IsPressed(r.samples) && r.at > LONG_PRESS_MS
  }

  /** The number of long readings among `rs`. */
  function CountLong(rs: seq<Reading>): nat {
    if rs == [] then 0 else (if IsLongReading(rs[0]) then 1 else 0) + CountLong(rs[1..])
  }

  /** The index of the first released reading, or `|rs|` when there is none. */
  function FirstRelease(rs: seq<Reading>): (p: nat)
    ensures p <= |rs|
    ensures forall i :: 0 <= i < p ==> !IsReleased(rs[i].samples)
    ensures p < |rs| ==> IsReleased(rs[p].samples)
  {
    if rs == [] then 0
    else if IsReleased(rs[0].samples) then 0
    else
      var q := FirstRelease(rs[1..]);
      assert forall i :: 0 < i < 1 + q ==> rs[i] == rs[1..][i - 1];
      1 + q
  }

  /**
   * Once the long press has started, one KeyLongIng follows for every long
   * reading before the first released reading, then one KeyLongEnd at that
   * released reading, which ends detection.
   */
  lemma {:induction false} LongPressTail(key: nat, rs: seq<Reading>)
    ensures LongTail(key, KeyDetect(key, true, rs).events, KeyDetect(key, true, rs).done)
    ensures var p := FirstRelease(rs);
      KeyDetect(key, true, rs) ==
        Detection(seq(CountLong(rs[..p]), _ => KeyLongIng(key)) + (if p < |rs| then [KeyLongEnd(key)] else []), p < |rs|)
    decreases |rs|
  {
    if rs != [] {
      LongPressTail(key, rs[1..]);
      if !IsReleased(rs[0].samples) {
        CountLongStep(rs);
        if IsLongReading(rs[0]) {
          RepeatCons(CountLong(rs[1..][..FirstRelease(rs[1..])]), KeyLongIng(key));
        }
      }
    }
  }

  lemma CountLongStep(rs: seq<Reading>)
    requires rs != [] && !IsReleased(rs[0].samples)
    ensures FirstRelease(rs) == 1 + FirstRelease(rs[1..])
    ensures CountLong(rs[..FirstRelease(rs)]) ==
      (if IsLongReading(rs[0]) then 1 else 0) + CountLong(rs[1..][..FirstRelease(rs[1..])])
  {
    var q := FirstRelease(rs[1..]);
    assert rs[..1 + q][0] == rs[0] && rs[..1 + q][1..] == rs[1..][..q];
  }

  lemma RepeatCons(n: nat, e: EventType)
    ensures [e] + seq(n, _ => e) == seq(n + 1, _ => e)
  {
  }

  /**
   * What one press produces: nothing yet, a single KeyShort or KeyDouble, or
   * exactly one KeyLongStart followed by the long-press tail.
   */
  predicate PressShape(key: nat, d: Detection) {
    d.events == []
    || (d.done && (d.events == [KeyShort(key)] || d.events == [KeyDouble(key)]))
    || (d.events[0] == KeyLongStart(key) && LongTail(key, d.events[1..], d.done))
  }

  /** Some long reading comes before any released reading. */
  predicate LongBeforeRelease(rs: seq<Reading>) {
    exists j :: 0 <= j < |rs| && IsLongReading(rs[j]) && forall i :: 0 <= i < j ==> !IsReleased(rs[i].samples)
  }

  /** A first reading that is neither long nor released does not decide whether a long reading comes before a release. */
  lemma LongBeforeReleaseShift(rs: seq<Reading>)
    requires rs != [] && !IsLongReading(rs[0]) && !IsReleased(rs[0].samples)
    ensures LongBeforeRelease(rs) <==> LongBeforeRelease(rs[1..])
  {
    if LongBeforeRelease(rs) {
      var j :| 0 <= j < |rs| && IsLongReading(rs[j]) && forall i :: 0 <= i < j ==> !IsReleased(rs[i].samples);
      assert j > 0;
      assert rs[1..][j - 1] == rs[j];
      assert forall i :: 0 <= i < j - 1 ==> !IsReleased(rs[1..][i].samples) by {
        forall i | 0 <= i < j - 1 ensures !IsReleased(rs[1..][i].samples) {
          assert rs[1..][i] == rs[i + 1];
        }
      }
    }
    if LongBeforeRelease(rs[1..]) {
      var j :| 0 <= j < |rs[1..]| && IsLongReading(rs[1..][j]) && forall i :: 0 <= i < j ==> !IsReleased(rs[1..][i].samples);
      assert rs[j + 1] == rs[1..][j];
      assert forall i :: 0 <= i < j + 1 ==> !IsReleased(rs[i].samples) by {
        forall i | 0 < i < j + 1 ensures !IsReleased(rs[i].samples) {
          assert rs[i] == rs[1..][i - 1];
        }
      }
    }
  }

  /**
   * One press yields one of the shapes of PressShape, and KeyLongStart is
   * emitted exactly when a long reading comes before any released reading.
   */
  lemma {:induction false} KeyDetectShape(key: nat, rs: seq<Reading>)
    ensures PressShape(key, KeyDetect(key, false, rs))
    ensures !KeyDetect(key, false, rs).done || KeyDetect(key, false, rs).events != []
    ensures (KeyDetect(key, false, rs).events != [] && KeyDetect(key, false, rs).events[0] == KeyLongStart(key))
      <==> LongBeforeRelease(rs)
    decreases |rs|
  {
    if rs != [] {
      PressedNotReleased(rs[0].samples);
      if IsPressed(rs[0].samples) && rs[0].at > LONG_PRESS_MS {
        LongPressTail(key, rs[1..]);
        var d := KeyDetect(key, false, rs);
        assert d.events[1..] == KeyDetect(key, true, rs[1..]).events;
        assert IsLongReading(rs[0]);
      } else if IsReleased(rs[0].samples) {
        assert !IsLongReading(rs[0]);
        assert !LongBeforeRelease(rs);
      } else {
        KeyDetectShape(key, rs[1..]);
        LongBeforeReleaseShift(rs);
      }
    }
  }

  /** KeyLongStart is emitted at the first long reading, and the long-press tail runs from the next reading on. */
  lemma {:induction false} LongStartsAtFirstLong(key: nat, rs: seq<Reading>, j: nat)
    requires j < |rs| && IsLongReading(rs[j])
    requires forall i :: 0 <= i < j ==> !IsLongReading(rs[i]) && !IsReleased(rs[i].samples)
    ensures KeyDetect(key, false, rs) == Prepend([KeyLongStart(key)], KeyDetect(key, true, rs[j + 1..]))
    decreases j
  {
    if j > 0 {
      assert forall i :: 0 <= i < j - 1 ==> rs[1..][i] == rs[i + 1];
      LongStartsAtFirstLong(key, rs[1..], j - 1);
      assert rs[1..][j..] == rs[j + 1..];
    }
  }

  /** After a short release: KeyDouble iff a pressed reading arrives before 400 ms have passed. */
  lemma {:induction false} DoubleIff(key: nat, rs: seq<Reading>)
    ensures AfterShortRelease(key, rs).events == [KeyDouble(key)] <==>
      exists j :: 0 <= j < |rs| && rs[j].at <= DOUBLE_CLICK_MS && IsPressed(rs[j].samples) &&
        forall i :: 0 <= i < j ==> rs[i].at <= DOUBLE_CLICK_MS && !IsPressed(rs[i].samples)
    decreases |rs|
  {
    if rs != [] {
      DoubleIff(key, rs[1..]);
      if rs[0].at <= DOUBLE_CLICK_MS && !IsPressed(rs[0].samples) {
        if AfterShortRelease(key, rs[1..]).events == [KeyDouble(key)] {
          var j :| 0 <= j < |rs[1..]| && rs[1..][j].at <= DOUBLE_CLICK_MS && IsPressed(rs[1..][j].samples) &&
            forall i :: 0 <= i < j ==> rs[1..][i].at <= DOUBLE_CLICK_MS && !IsPressed(rs[1..][i].samples);
          assert forall i :: 0 <= i < j + 1 ==> rs[i].at <= DOUBLE_CLICK_MS && !IsPressed(rs[i].samples) by {
            forall i | 0 < i < j + 1 ensures rs[i].at <= DOUBLE_CLICK_MS && !IsPressed(rs[i].samples) {
              assert rs[i] == rs[1..][i - 1];
            }
          }
          assert rs[j + 1] == rs[1..][j];
        } else {
          forall j | 0 < j < |rs| && rs[j].at <= DOUBLE_CLICK_MS && IsPressed(rs[j].samples)
            ensures exists i :: 0 <= i < j && !(rs[i].at <= DOUBLE_CLICK_MS && !IsPressed(rs[i].samples))
          {
            assert rs[j] == rs[1..][j - 1];
            var i :| 0 <= i < j - 1 && !(rs[1..][i].at <= DOUBLE_CLICK_MS && !IsPressed(rs[1..][i].samples));
            assert rs[i + 1] == rs[1..][i];
          }
        }
      }
    }
  }

  /** After a short release: KeyShort iff 400 ms pass without a pressed reading. */
  lemma {:induction false} ShortIff(key: nat, rs: seq<Reading>)
    ensures AfterShortRelease(key, rs).events == [KeyShort(key)] <==>
      exists j :: 0 <= j < |rs| && rs[j].at > DOUBLE_CLICK_MS &&
        forall i :: 0 <= i < j ==> rs[i].at <= DOUBLE_CLICK_MS && !IsPressed(rs[i].samples)
    decreases |rs|
  {
    if rs != [] {
      ShortIff(key, rs[1..]);
      if rs[0].at <= DOUBLE_CLICK_MS && !IsPressed(rs[0].samples) {
        if AfterShortRelease(key, rs[1..]).events == [KeyShort(key)] {
          var j :| 0 <= j < |rs[1..]| && rs[1..][j].at > DOUBLE_CLICK_MS &&
            forall i :: 0 <= i < j ==> rs[1..][i].at <= DOUBLE_CLICK_MS && !IsPressed(rs[1..][i].samples);
          assert forall i :: 0 <= i < j + 1 ==> rs[i].at <= DOUBLE_CLICK_MS && !IsPressed(rs[i].samples) by {
            forall i | 0 < i < j + 1 ensures rs[i].at <= DOUBLE_CLICK_MS && !IsPressed(rs[i].samples) {
              assert rs[i] == rs[1..][i - 1];
            }
          }
          assert rs[j + 1] == rs[1..][j];
        } else {
          forall j | 0 < j < |rs| && rs[j].at > DOUBLE_CLICK_MS
            ensures exists i :: 0 <= i < j && !(rs[i].at <= DOUBLE_CLICK_MS && !IsPressed(rs[i].samples))
          {
            assert rs[j] == rs[1..][j - 1];
            var i :| 0 <= i < j - 1 && !(rs[1..][i].at <= DOUBLE_CLICK_MS && !IsPressed(rs[1..][i].samples));
            assert rs[i + 1] == rs[1..][i];
          }
        }
      }
    }
  }

  /** The inner loop of `key_detection` after a short release. */
  method AwaitSecondPress(key: nat, rs: seq<Reading>) returns (d: Detection)
    ensures d == AfterShortRelease(key, rs)
  {
    var k := 0;
    while k < |rs|
      invariant 0 <= k <= |rs|
      invariant AfterShortRelease(key, rs) == AfterShortRelease(key, rs[k..])
    {
      assert rs[k..][1..] == rs[k + 1..];
      var now := rs[k].at;
      if now > DOUBLE_CLICK_MS {
        return Detection([KeyShort(key)], true);
      }
      var low := CountLow(rs[k].samples);
      k := k + 1;
      if low > JUDGE_TIMES {
        return Detection([KeyDouble(key)], true);
      }
    }
    return Detection([], false);
  }

  /** `key_detection` for key number `key`, reading `rs` in turn until it returns or the readings run out. */
  method KeyDetection(key: nat, rs: seq<Reading>) returns (d: Detection)
    ensures d == KeyDetect(key, false, rs)
  {
    var events: seq<EventType> := [];
    var isLong := false;
    var k := 0;
    while k < |rs|
      invariant 0 <= k <= |rs|
      invariant KeyDetect(key, false, rs) == Prepend(events, KeyDetect(key, isLong, rs[k..]))
    {
      assert rs[k..][1..] == rs[k + 1..];
      var lowTimes := CountLow(rs[k].samples);
      var current := rs[k].at;
      k := k + 1;
      if lowTimes > JUDGE_TIMES {
        if current > LONG_PRESS_MS {
          if !isLong {
            isLong := true;
            events := events + [KeyLongStart(key)];
          } else {
            events := events + [KeyLongIng(key)];
          }
        }
      } else if lowTimes < SAMPLE_TIMES - JUDGE_TIMES {
        if isLong {
          return Detection(events + [KeyLongEnd(key)], true);
        }
        var rest := AwaitSecondPress(key, rs[k..]);
        return Prepend(events, rest);
      }
    }
    return Detection(events, false);
  }
}
