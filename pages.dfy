/**
 * What the pages share: the page kinds of the main menu, menu items and
 * the listener tables pages register in `bind_event`. A page's handlers
 * are numbered in registration order, so the callback of the `k`-th
 * registration is `k`; `target` is the page address passed to
 * `on_target`, or `None` for `on`.
 */
module Pages {
  import opened Wrappers
  import opened Event

  datatype PageKind = EMainPage | EClockPage | ETimerPage | EWeatherPage | ECalenderPage | EChip8Page

  datatype MenuItem = MenuItem(title: string, page: PageKind)

  /** The listener table of handlers registered for `events`, in order. */
  function Table(events: seq<EventType>, target: Option<nat>): (ls: seq<Listener>)
    ensures |ls| == |events|
    ensures forall k :: 0 <= k < |ls| ==> ls[k] == Listener(k, events[k], target, false)
  {
    seq(|events|, k requires 0 <= k < |events| => Listener(k, events[k], target, false))
  }

  predicate Distinct(events: seq<EventType>) {
    forall i, j :: 0 <= i < j < |events| ==> events[i] != events[j]
  }

  /**
   * In a table with one handler per event, toggling an event calls its
   * handler once, and toggling an event without a handler calls nothing.
   */
  lemma DispatchTable(events: seq<EventType>, target: Option<nat>, e: EventType)
    requires Distinct(events)
    ensures e !in events ==> Dispatch(Table(events, target), e) == []
    ensures forall k :: 0 <= k < |events| && events[k] == e ==> Dispatch(Table(events, target), e) == [Call(k, target)]
  {
    var ls := Table(events, target);
    match LastIndexOf(ls, e)
    case None =>
      DispatchNone(ls, e);
    case Some(k) =>
      DispatchRemove(ls, k, e);
      DispatchNone(ls[..k], e);
      var rest := ls[k + 1..];
      forall j | 0 <= j < |rest| ensures rest[j].eventType != e {
        assert rest[j] == ls[k + 1 + j];
      }
      DispatchNone(rest, e);
      DispatchOne(ls[k], e);
  }
}
