/**
 * The main menu page (`MainPage`): a cursor over the five menu entries,
 * moved by the keys and the wheel and by the auto-repeat tasks while a key
 * is held, and the page to open when the push key is short-pressed.
 */
module MainPage {
  import opened Wrappers
  import opened Geometry
  import opened Event
  import opened Pages
  import opened ListWidget
  import opened RustStr

  const MENUS: seq<MenuItem> := [
    MenuItem("时钟", EClockPage),
    MenuItem("定时器", ETimerPage),
    MenuItem("天气", EWeatherPage),
    MenuItem("日历", ECalenderPage),
    MenuItem("游戏", EChip8Page)]

  const MENU_COUNT: nat := 5

  /** What a handler does: move the cursor, open the chosen page, or start or stop an auto-repeat task. */
  datatype Action = Increase | Decrease | Open | RepeatIncrease(start: bool) | RepeatDecrease(start: bool)

  /** The events `bind_event` registers, in order, and the action of each. */
  const EVENTS: seq<EventType> := [KeyShort(1), KeyLongStart(1), KeyLongEnd(1), KeyLongStart(2), KeyLongEnd(2),
                                    KeyShort(2), KeyShort(5), WheelFront, WheelBack]
  const ACTIONS: seq<Action> := [Increase, RepeatIncrease(true), RepeatIncrease(false), RepeatDecrease(true),
                                  RepeatDecrease(false), Decrease, Open, Increase, Decrease]

  /** The page's reaction to each event, as the handlers are written. */
  function ActionFor(e: EventType): Option<Action> {
    match e
    case KeyShort(k) => if k == 1 then Some(Increase) else if k == 2 then Some(Decrease) else if k == 5 then Some(Open) else None
    case KeyLongStart(k) => if k == 1 then Some(RepeatIncrease(true)) else if k == 2 then Some(RepeatDecrease(true)) else None
    case KeyLongEnd(k) => if k == 1 then Some(RepeatIncrease(false)) else if k == 2 then Some(RepeatDecrease(false)) else None
    case WheelFront => Some(Increase)
    case WheelBack => Some(Decrease)
    case _ => None
  }

  /**
   * Toggling an event on the main page's table calls exactly the handlers
   * of its action: one handler for each event the page reacts to, none for
   * the others.
   */
  lemma MainDispatch(e: EventType)
    ensures |Dispatch(Table(EVENTS, None), e)| == if ActionFor(e).Some? then 1 else 0
    ensures forall c :: c in Dispatch(Table(EVENTS, None), e) ==> c.callback < |ACTIONS| && Some(ACTIONS[c.callback]) == ActionFor(e)
  {
    EventsDistinct();
    TableAgrees();
    DispatchTable(EVENTS, None, e);
    if ActionFor(e).Some? {
      HandledListed(e);
    }
  }

  lemma EventsDistinct()
    ensures Distinct(EVENTS)
  {
  }

  /** The registered handlers are the ones the reference mapping names. */
  lemma TableAgrees()
    ensures |EVENTS| == |ACTIONS|
    ensures forall k :: 0 <= k < |EVENTS| ==> ActionFor(EVENTS[k]) == Some(ACTIONS[k])
  {
  }

  lemma HandledListed(e: EventType)
    requires ActionFor(e).Some?
    ensures e in EVENTS
  {
  }

  /** The fields the handlers change. */
  datatype MainState = MainState(currentPage: Option<nat>, chooseIndex: nat, needRender: bool)

  /** The effect of an action on the page; the repeat actions only message the auto-repeat tasks. */
  function Apply(s: MainState, a: Action): (r: MainState)
    requires s.chooseIndex < MENU_COUNT
    ensures r.chooseIndex < MENU_COUNT
    ensures a == Increase ==> r.chooseIndex == if s.chooseIndex < MENU_COUNT - 1 then s.chooseIndex + 1 else s.chooseIndex
    ensures a == Decrease ==> r.chooseIndex == if s.chooseIndex > 0 then s.chooseIndex - 1 else 0
    ensures a != Increase && a != Decrease ==> r.chooseIndex == s.chooseIndex
    ensures r.needRender <==> s.needRender || r.chooseIndex != s.chooseIndex
    ensures r.currentPage == if a == Open then Some(s.chooseIndex) else s.currentPage
  {
    match a
    case Increase =>
      if s.chooseIndex < MENU_COUNT - 1 then s.(chooseIndex := s.chooseIndex + 1, needRender := true) else s
    case Decrease =>
      if s.chooseIndex > 0 then s.(chooseIndex := s.chooseIndex - 1, needRender := true) else s
    case Open => s.(currentPage := Some(s.chooseIndex))
    case _ => s
  }

  /** `n` repetitions of an action, as an auto-repeat task performs them. */
  function Repeat(s: MainState, a: Action, n: nat): (r: MainState)
    requires s.chooseIndex < MENU_COUNT
    ensures r.chooseIndex < MENU_COUNT
    decreases n
  {
    if n == 0 then s else Repeat(Apply(s, a), a, n - 1)
  }

  /**
   * Holding a key for `n` ticks moves the cursor `n` entries, stopping at
   * the ends of the menu, and leaves the open page alone.
   */
  lemma {:induction false} RepeatClamps(s: MainState, n: nat)
    requires s.chooseIndex < MENU_COUNT
    ensures Repeat(s, Increase, n).chooseIndex == if s.chooseIndex + n < MENU_COUNT then s.chooseIndex + n else MENU_COUNT - 1
    ensures Repeat(s, Decrease, n).chooseIndex == if s.chooseIndex >= n then s.chooseIndex - n else 0
    ensures Repeat(s, Increase, n).currentPage == s.currentPage && Repeat(s, Decrease, n).currentPage == s.currentPage
    decreases n
  {
    if n > 0 {
      RepeatClamps(Apply(s, Increase), n - 1);
      RepeatClamps(Apply(s, Decrease), n - 1);
      assert Repeat(s, Increase, n) == Repeat(Apply(s, Increase), Increase, n - 1);
      assert Repeat(s, Decrease, n) == Repeat(Apply(s, Decrease), Decrease, n - 1);
    }
  }

  /** Moving down and back up returns to the same entry, away from the last one. */
  lemma IncreaseThenDecrease(s: MainState)
    requires s.chooseIndex < MENU_COUNT - 1
    ensures Apply(Apply(s, Increase), Decrease).chooseIndex == s.chooseIndex
  {
  }

  class MainPage {
    var currentPage: Option<nat>
    var chooseIndex: nat
    var isLongStart: bool
    var needRender: bool
    var menus: seq<MenuItem>

    predicate Valid()
      reads this
    {
      menus == MENUS && chooseIndex < MENU_COUNT
    }

    function State(): MainState
      reads this
    {
      MainState(currentPage, chooseIndex, needRender)
    }

    /** `MainPage::new`: the five entries, the first chosen, no page open. */
    constructor ()
      ensures Valid()
      ensures currentPage == None && chooseIndex == 0 && !isLongStart && needRender
      ensures |menus| == 5 && menus[0].page == EClockPage && menus[1].page == ETimerPage &&
              menus[2].page == EWeatherPage && menus[3].page == ECalenderPage && menus[4].page == EChip8Page
    {
      currentPage := None;
      chooseIndex := 0;
      isLongStart := false;
      needRender := true;
      menus := MENUS;
    }

    /** `increase` */
    method Increase()
      requires Valid()
      modifies this
      ensures Valid() && State() == Apply(old(State()), Action.Increase)
      ensures isLongStart == old(isLongStart)
    {
      if chooseIndex < |menus| - 1 {
        chooseIndex := chooseIndex + 1;
        needRender := true;
      }
    }

    /** `decrease` */
    method Decrease()
      requires Valid()
      modifies this
      ensures Valid() && State() == Apply(old(State()), Action.Decrease)
      ensures isLongStart == old(isLongStart)
    {
      if chooseIndex > 0 {
        chooseIndex := chooseIndex - 1;
        needRender := true;
      }
    }

    /** `back`: close the open page and take the key and wheel events back. */
    method Back(bus: EventBus)
      requires Valid() && bus.Valid()
      modifies this, bus
      ensures Valid() && bus.Valid()
      ensures State() == old(State()).(currentPage := None, needRender := true)
      ensures bus.listeners == Table(EVENTS, None)
    {
      currentPage := None;
      needRender := true;
      BindEvent(bus);
    }

    /** What the handler registered for an action does to the page. */
    method Handle(a: Action)
      requires Valid()
      modifies this
      ensures Valid() && State() == Apply(old(State()), a)
    {
      match a
      case Increase => Increase();
      case Decrease => Decrease();
      case Open => currentPage := Some(chooseIndex);
      case _ =>
    }

    /**
     * One round of an auto-repeat task: after the message that starts it,
     * one step per 100 ms tick, `ticks` of them before the next message
     * arrives and ends the round.
     */
    method AutoRepeat(a: Action, ticks: nat)
      requires Valid() && (a == Action.Increase || a == Action.Decrease)
      modifies this
      ensures Valid() && State() == Repeat(old(State()), a, ticks)
    {
      var n := 0;
      while n < ticks
        invariant 0 <= n <= ticks && Valid()
        invariant Repeat(old(State()), a, ticks) == Repeat(State(), a, ticks - n)
      {
        if a == Action.Increase {
          Increase();
        } else {
          Decrease();
        }
        n := n + 1;
      }
    }

    /**
     * `render`: with a display and a pending change, lay the menu out as a
     * list with the cursor's entry chosen; without a display nothing
     * happens and the change stays pending.
     */
    method Render(display: Option<Size>) returns (shown: Option<ListWidget>)
      requires Valid() && (display.Some? ==> display.value.width >= SCROLL_WIDTH)
      modifies this
      ensures Valid()
      ensures needRender == (old(needRender) && display.None?)
      ensures currentPage == old(currentPage) && chooseIndex == old(chooseIndex)
      ensures shown.Some? <==> old(needRender) && display.Some?
      ensures shown.Some? ==> fresh(shown.value) && |shown.value.items| == MENU_COUNT
      ensures shown.Some? ==> forall j :: 0 <= j < MENU_COUNT ==>
        (shown.value.items[j].text == MENUS[j].title && (shown.value.items[j].isChoose <==> j == chooseIndex))
    {
      shown := None;
      if needRender && display.Some? {
        needRender := false;
        var titles := [MENUS[0].title, MENUS[1].title, MENUS[2].title, MENUS[3].title, MENUS[4].title];
        forall i | 0 <= i < |titles| ensures Utf8Len(titles[i]) <= LABEL_CAPACITY {
          Utf8LenAtMost(titles[i]);
        }
        var w := new ListWidget(Point(0, 0), display.value, titles);
        w.Choose(chooseIndex);
        shown := Some(w);
      }
    }

    /** `bind_event`: the page's nine handlers replace whatever was registered. */
    method BindEvent(bus: EventBus)
      requires bus.Valid()
      modifies bus
      ensures bus.Valid() && bus.listeners == Table(EVENTS, None)
    {
      bus.Clear();
      bus.On(KeyShort(1), 0);
      bus.On(KeyLongStart(1), 1);
      bus.On(KeyLongEnd(1), 2);
      bus.On(KeyLongStart(2), 3);
      bus.On(KeyLongEnd(2), 4);
      bus.On(KeyShort(2), 5);
      bus.On(KeyShort(5), 6);
      bus.On(WheelFront, 7);
      bus.On(WheelBack, 8);
      assert bus.listeners == Table(EVENTS, None);
    }
  }
}
