/**
 * The count-down page (`CountDownPage`): a counter in 0..=500 that `run`
 * advances once per second of the monotonic clock. The page lives in a
 * shared slot, installed by `init` and dropped by `close`.
 */
module CountDownPage {
  import opened Wrappers
  import opened Event

  const MAX_INDEX: nat := 500

  datatype CountState = CountState(chooseIndex: nat, needRender: bool)

  function Increased(s: CountState): (r: CountState)
    ensures r.chooseIndex == if s.chooseIndex < MAX_INDEX then s.chooseIndex + 1 else s.chooseIndex
    ensures r.needRender <==> s.needRender || r.chooseIndex != s.chooseIndex
  {
    if s.chooseIndex < MAX_INDEX then s.(chooseIndex := s.chooseIndex + 1, needRender := true) else s
  }

  function Decreased(s: CountState): (r: CountState)
    ensures r.chooseIndex == if s.chooseIndex > 0 then s.chooseIndex - 1 else 0
    ensures r.needRender <==> s.needRender || r.chooseIndex != s.chooseIndex
  {
    if s.chooseIndex > 0 then s.(chooseIndex := s.chooseIndex - 1, needRender := true) else s
  }

  /** How many readings differ from the one before them, starting from `last`. */
  function Changes(last: nat, readings: seq<nat>): (n: nat)
    ensures n <= |readings|
    decreases |readings|
  {
    if readings == [] then 0
    else (if readings[0] != last then 1 else 0) + Changes(readings[0], readings[1..])
  }

  /**
   * `run`'s loop over the clock readings it takes, one per iteration: on a
   * new second `increase`, then `render`, which takes the pending change.
   * The result is the state and the last second recorded.
   */
  function Ticks(s: CountState, last: nat, readings: seq<nat>): (r: (CountState, nat))
    decreases |readings|
  {
    if readings == [] then (s, last)
    else
      var t := if readings[0] != last then Increased(s) else s;
      Ticks(t.(needRender := false), readings[0], readings[1..])
  }

  /** After the loop the counter has advanced once per change of second, up to 500. */
  lemma {:induction false} TicksCount(s: CountState, last: nat, readings: seq<nat>)
    ensures Ticks(s, last, readings).0.chooseIndex ==
      if s.chooseIndex >= MAX_INDEX then s.chooseIndex
      else if s.chooseIndex + Changes(last, readings) <= MAX_INDEX then s.chooseIndex + Changes(last, readings)
      else MAX_INDEX
    ensures readings != [] ==> !Ticks(s, last, readings).0.needRender && Ticks(s, last, readings).1 == readings[|readings| - 1]
    ensures readings == [] ==> Ticks(s, last, readings) == (s, last)
    decreases |readings|
  {
    if readings != [] {
      var t := if readings[0] != last then Increased(s) else s;
      TicksCount(t.(needRender := false), readings[0], readings[1..]);
      if |readings| > 1 {
        assert readings[1..][|readings[1..]| - 1] == readings[|readings| - 1];
      }
    }
  }

  predicate NonDecreasing(last: nat, readings: seq<nat>) {
    (readings != [] ==> last <= readings[0]) && forall i, j :: 0 <= i < j < |readings| ==> readings[i] <= readings[j]
  }

  /** On a monotonic clock the counter advances by at most the seconds elapsed. */
  lemma {:induction false} ChangesWithinElapsed(last: nat, readings: seq<nat>)
    requires NonDecreasing(last, readings) && readings != []
    ensures Changes(last, readings) <= readings[|readings| - 1] - last
    decreases |readings|
  {
    var rest := readings[1..];
    if rest == [] {
    } else {
      assert NonDecreasing(readings[0], rest) by {
        forall i, j | 0 <= i < j < |rest| ensures rest[i] <= rest[j] {
          assert rest[i] == readings[i + 1] && rest[j] == readings[j + 1];
        }
      }
      ChangesWithinElapsed(readings[0], rest);
      assert rest[|rest| - 1] == readings[|readings| - 1];
    }
  }

  class CountDownPage {
    var beginCount: nat
    var currentCount: nat
    var needRender: bool
    var chooseIndex: nat

    function State(): CountState
      reads this
    {
      CountState(chooseIndex, needRender)
    }

    /** `CountDownPage::new` */
    constructor ()
      ensures beginCount == 0 && currentCount == 0 && chooseIndex == 0 && needRender
    {
      beginCount, currentCount, chooseIndex := 0, 0, 0;
      needRender := true;
    }

    /** `increase` */
    method Increase()
      modifies this
      ensures State() == Increased(old(State()))
      ensures beginCount == old(beginCount) && currentCount == old(currentCount)
    {
      if chooseIndex < 500 {
        chooseIndex := chooseIndex + 1;
        needRender := true;
      }
    }

    /** `decrease` */
    method Decrease()
      modifies this
      ensures State() == Decreased(old(State()))
      ensures beginCount == old(beginCount) && currentCount == old(currentCount)
    {
      if chooseIndex > 0 {
        chooseIndex := chooseIndex - 1;
        needRender := true;
      }
    }

    /** `render`: takes the pending change; the drawing is not modelled. */
    method Render()
      modifies this
      ensures State() == old(State()).(needRender := false)
      ensures beginCount == old(beginCount) && currentCount == old(currentCount)
    {
      if needRender {
        needRender := false;
      }
    }

    /**
     * `run`, for the clock readings `start` (taken before the loop) and
     * `readings` (one per iteration); returns the last second recorded.
     */
    method Run(start: nat, readings: seq<nat>) returns (lastSecs: nat)
      modifies this
      ensures (State(), lastSecs) == Ticks(old(State()), start, readings)
    {
      lastSecs := start;
      ghost var goal := Ticks(State(), start, readings);
      for i := 0 to |readings|
        invariant Ticks(State(), lastSecs, readings[i..]) == goal
      {
        assert readings[i..][1..] == readings[i + 1..];
        var currentSecs := readings[i];
        if currentSecs != lastSecs {
          Increase();
          lastSecs := currentSecs;
        }
        Render();
      }
      assert readings[|readings|..] == [];
    }
  }

  /** The shared slot holding the page. */
  class CountDownSlot {
    var page: Option<CountDownPage>

    constructor ()
      ensures page == None
    {
      page := None;
    }

    /** `init`: install a new page and clear the listener table (the page registers no handlers). */
    method Init(bus: EventBus)
      modifies this, bus
      ensures bus.Valid() && bus.listeners == []
      ensures page.Some? && fresh(page.value)
      ensures page.value.chooseIndex == 0 && page.value.needRender
    {
      var p := new CountDownPage();
      page := Some(p);
      bus.Clear();
    }

    /** `close`: empty the listener table and drop the page. */
    method Close(bus: EventBus)
      modifies this, bus
      ensures bus.Valid() && bus.listeners == [] && page == None
    {
      bus.Clear();
      page := None;
    }
  }
}
