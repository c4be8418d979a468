/**
 * The timer page (`TimerPage`): a counter in 0..=500 that the first key
 * raises, and a `running` flag that the push key clears to leave the page.
 */
module TimerPage {
  import opened Wrappers
  import opened Event
  import opened Pages

  const MAX_INDEX: nat := 500

  /** What a handler does; the handler of the second key only logs. */
  datatype Action = Increase | Decrease | Back | Nothing

  const EVENTS: seq<EventType> := [KeyShort(2), KeyShort(1), KeyShort(5)]
  const ACTIONS: seq<Action> := [Nothing, Increase, Back]

  /** The page's reaction to each event, as the handlers are written. */
  function ActionFor(e: EventType): Option<Action> {
    match e
    case KeyShort(k) => if k == 1 then Some(Increase) else if k == 2 then Some(Nothing) else if k == 5 then Some(Back) else None
    case _ => None
  }

  lemma TableAgrees()
    ensures Distinct(EVENTS) && |EVENTS| == |ACTIONS|
    ensures forall k :: 0 <= k < |EVENTS| ==> ActionFor(EVENTS[k]) == Some(ACTIONS[k])
  {
  }

  /** Toggling an event calls the one handler of its action, or nothing when the page has none. */
  lemma TimerDispatch(page: nat, e: EventType)
    ensures |Dispatch(Table(EVENTS, Some(page)), e)| == if ActionFor(e).Some? then 1 else 0
    ensures forall c :: c in Dispatch(Table(EVENTS, Some(page)), e) ==>
      c.target == Some(page) && c.callback < |ACTIONS| && Some(ACTIONS[c.callback]) == ActionFor(e)
  {
    TableAgrees();
    DispatchTable(EVENTS, Some(page), e);
    if ActionFor(e).Some? {
      assert e in EVENTS;
    }
  }

  datatype TimerState = TimerState(chooseIndex: nat, needRender: bool, running: bool)

  /** The effect of an action on the page. */
  function Apply(s: TimerState, a: Action): (r: TimerState)
    requires s.chooseIndex <= MAX_INDEX
    ensures r.chooseIndex <= MAX_INDEX
    ensures a == Increase ==> r.chooseIndex == if s.chooseIndex < MAX_INDEX then s.chooseIndex + 1 else s.chooseIndex
    ensures a == Decrease ==> r.chooseIndex == if s.chooseIndex > 0 then s.chooseIndex - 1 else 0
    ensures a != Increase && a != Decrease ==> r.chooseIndex == s.chooseIndex
    ensures r.needRender <==> s.needRender || r.chooseIndex != s.chooseIndex
    ensures r.running <==> s.running && a != Back
  {
    match a
    case Increase => if s.chooseIndex < MAX_INDEX then s.(chooseIndex := s.chooseIndex + 1, needRender := true) else s
    case Decrease => if s.chooseIndex > 0 then s.(chooseIndex := s.chooseIndex - 1, needRender := true) else s
    case Back => s.(running := false)
    case Nothing => s
  }

  /**
   * `run`'s loop from its test of `running`, with one handler action
   * arriving during each iteration's pause: the final state and the number
   * of iterations. The loop ends when `running` is false; the actions
   * supplied bound how far the model follows it.
   */
  function RunLoop(s: TimerState, inputs: seq<Action>): (r: (TimerState, nat))
    requires s.chooseIndex <= MAX_INDEX
    ensures r.0.chooseIndex <= MAX_INDEX
    ensures r.1 <= |inputs|
    decreases |inputs|
  {
    if !s.running || inputs == [] then (s, 0)
    else
      var next := RunLoop(Apply(s.(needRender := false), inputs[0]), inputs[1..]);
      (next.0, next.1 + 1)
  }

  /** The index of the first `Back` among the actions, if there is one. */
  function FirstBack(inputs: seq<Action>): (r: Option<nat>)
    ensures r.Some? ==> r.value < |inputs| && inputs[r.value] == Back && forall j :: 0 <= j < r.value ==> inputs[j] != Back
    ensures r.None? ==> forall j :: 0 <= j < |inputs| ==> inputs[j] != Back
  {
    if inputs == [] then None
    else if inputs[0] == Back then Some(0)
    else match FirstBack(inputs[1..]) case None => None case Some(k) => Some(k + 1)
  }

  /**
   * A running page stays on screen until the first `Back`: the loop makes
   * exactly one iteration per action up to and including it and then
   * returns with `running` false; without one, it is still running.
   */
  lemma {:induction false} RunEndsAtFirstBack(s: TimerState, inputs: seq<Action>)
    requires s.chooseIndex <= MAX_INDEX && s.running
    ensures FirstBack(inputs).Some? ==> RunLoop(s, inputs).1 == FirstBack(inputs).value + 1 && !RunLoop(s, inputs).0.running
    ensures FirstBack(inputs).None? ==> RunLoop(s, inputs).1 == |inputs| && RunLoop(s, inputs).0.running
    decreases |inputs|
  {
    if inputs != [] {
      var t := Apply(s.(needRender := false), inputs[0]);
      if inputs[0] != Back {
        RunEndsAtFirstBack(t, inputs[1..]);
      }
    }
  }

  class TimerPage {
    var beginCount: nat
    var currentCount: nat
    var needRender: bool
    var chooseIndex: nat
    var running: bool
    var loading: bool
    var error: Option<string>

    predicate Valid()
      reads this
    {
      chooseIndex <= MAX_INDEX
    }

    function State(): TimerState
      reads this
    {
      TimerState(chooseIndex, needRender, running)
    }

    /** `TimerPage::new` */
    constructor ()
      ensures Valid()
      ensures beginCount == 0 && currentCount == 0 && chooseIndex == 0
      ensures needRender && running && !loading && error == None
    {
      beginCount, currentCount, chooseIndex := 0, 0, 0;
      needRender, running, loading := true, true, false;
      error := None;
    }

    /** `increase` */
    method Increase()
      requires Valid()
      modifies this
      ensures Valid() && State() == Apply(old(State()), Action.Increase)
      ensures beginCount == old(beginCount) && currentCount == old(currentCount) && loading == old(loading) && error == old(error)
    {
      if chooseIndex < 500 {
        chooseIndex := chooseIndex + 1;
        needRender := true;
      }
    }

    /** `decrease` */
    method Decrease()
      requires Valid()
      modifies this
      ensures Valid() && State() == Apply(old(State()), Action.Decrease)
      ensures beginCount == old(beginCount) && currentCount == old(currentCount) && loading == old(loading) && error == old(error)
    {
      if chooseIndex > 0 {
        chooseIndex := chooseIndex - 1;
        needRender := true;
      }
    }

    /** `back`: only `running` changes. */
    method Back()
      modifies this
      ensures running == false
      ensures beginCount == old(beginCount) && currentCount == old(currentCount) && needRender == old(needRender)
      ensures chooseIndex == old(chooseIndex) && loading == old(loading) && error == old(error)
    {
      running := false;
    }

    method Handle(a: Action)
      requires Valid()
      modifies this
      ensures Valid() && State() == Apply(old(State()), a)
    {
      match a
      case Increase => Increase();
      case Decrease => Decrease();
      case Back => Back();
      case Nothing =>
    }

    /** `render`: the pending change is taken whether or not there is a display; the drawing is not modelled. */
    method Render()
      modifies this
      ensures State() == old(State()).(needRender := false)
    {
      if needRender {
        needRender := false;
      }
    }

    /** `bind_event`: the three handlers, each passed this page. */
    method BindEvent(bus: EventBus, pagePtr: nat)
      requires bus.Valid()
      modifies bus
      ensures bus.Valid() && bus.listeners == Table(EVENTS, Some(pagePtr))
    {
      bus.Clear();
      bus.OnTarget(KeyShort(2), pagePtr, 0);
      bus.OnTarget(KeyShort(1), pagePtr, 1);
      bus.OnTarget(KeyShort(5), pagePtr, 2);
      assert bus.listeners == Table(EVENTS, Some(pagePtr));
    }

    /** `run`: set `running`, then redraw every 50 ms until a handler clears it. */
    method Run(inputs: seq<Action>) returns (rounds: nat)
      requires Valid()
      modifies this
      ensures Valid()
      ensures State() == RunLoop(old(State()).(running := true), inputs).0
      ensures rounds == RunLoop(old(State()).(running := true), inputs).1
    {
      running := true;
      ghost var goal := RunLoop(State(), inputs);
      rounds := 0;
      var i := 0;
      while i < |inputs|
        invariant 0 <= i <= |inputs| && Valid()
        invariant RunLoop(State(), inputs[i..]).0 == goal.0
        invariant rounds + RunLoop(State(), inputs[i..]).1 == goal.1
        invariant rounds == i
        decreases |inputs| - i
      {
        if !running {
          break;
        }
        assert inputs[i..][1..] == inputs[i + 1..];
        needRender := true;
        Render();
        Handle(inputs[i]);
        rounds := rounds + 1;
        i := i + 1;
      }
    }
  }
}
