/**
 * The Wi-Fi access broker and the connection task. The shared statics
 * `WIFI_STATE`, `WIFI_LOCK`, `LAST_USE_TIME_SECS`, the stop and reconnect
 * signals and the registered station stack are the fields of `WifiBroker`.
 * Each task step (one poll of `use_wifi`, `finish_wifi`, one `do_stop` tick,
 * one resumption of `connection_wifi`) is one atomic method; what other
 * tasks do while `use_wifi` is suspended reaches it through its polls.
 */
module Wifi {
  const TIME_OUT_SECS: nat := 10
  const HOW_LONG_SECS_CLOSE: nat := 30

  datatype NetState = Connecting | Connected | Disconnected | Stopped

  /** `WifiNetError`; the model produces `TimeOut` and `Infallible`, as the code does. */
  datatype NetError = WaitConnecting | TimeOut | Infallible | Using

  /** Where `connection_wifi` is suspended. */
  datatype Phase =
    | CheckDriver     // at the top of the loop, about to ask the driver
    | AwaitDrop       // connected, in `select(disconnect, stop)`
    | AwaitReconnect  // stopped, waiting for the reconnect signal
    | StartConnect    // about to call `connect`
    | AwaitConnect    // inside `connect`

  /** The shared statics, and the connection task's position. */
  datatype Shared = Shared(
    state: NetState,
    lock: bool,
    lastUse: nat,
    stopSignal: bool,
    reconnectSignal: bool,
    hasStack: bool,
    phase: Phase)

  /** Their values at boot: stopped, unlocked, no stack registered yet. */
  const BOOT: Shared := Shared(Stopped, false, 0, false, false, false, CheckDriver)

  /** The state each position of the connection task implies. */
  predicate Consistent(s: Shared) {
    match s.phase
    case CheckDriver => s.state != Disconnected
    case AwaitDrop => s.state == Connected
    case AwaitReconnect => s.state == Stopped
    case StartConnect => s.state == Disconnected
    case AwaitConnect => s.state == Connecting
  }

  /** The changes of `WIFI_STATE` the connection task makes. */
  predicate Allowed(a: NetState, b: NetState) {
    a == b
    || (a == Connected && (b == Disconnected || b == Stopped))
    || (a == Stopped && (b == Disconnected || b == Connected))
    || (a == Connecting && (b == Connected || b == Disconnected))
    || (a == Disconnected && b == Connecting)
  }

  // ---------------------------------------------------------------------------
  // use_wifi

  /** One poll of `use_wifi`: the time read, whether the link is up, and whether the lock is held by another task. */
  datatype Poll = Poll(now: nat, linkUp: bool, lockHeld: bool)

  datatype UseOutcome = Acquired | Failed(error: NetError) | StillWaiting

  /** The system clock does not go back: every poll is at or after the call's start. */
  predicate NotBefore(start: nat, polls: seq<Poll>) {
    forall i :: 0 <= i < |polls| ==> start <= polls[i].now
  }

  /** The entry of `use_wifi`: a stopped connection is asked to reconnect. */
  function Enter(s: Shared): (r: Shared)
    ensures r.reconnectSignal <==> s.reconnectSignal || s.state == Stopped
    ensures r.(reconnectSignal := s.reconnectSignal) == s
  {
    if s.state == Stopped then s.(reconnectSignal := true) else s
  }

  /** Up to poll `i` the inner loop went on waiting: the lock was held and the time-out had not passed. */
  predicate LockWaitedBefore(start: nat, polls: seq<Poll>, i: int)
    requires 0 <= i <= |polls|
  {
    forall j :: 0 <= j < i ==> polls[j].lockHeld && polls[j].now <= start + TIME_OUT_SECS
  }

  /** The inner loop ends at poll `i` by finding the lock free. */
  predicate LockFreedAt(start: nat, polls: seq<Poll>, i: int)
    requires 0 <= i < |polls|
  {
    !polls[i].lockHeld && LockWaitedBefore(start, polls, i)
  }

  /** The inner loop ends at poll `i` by timing out with the lock still held. */
  predicate LockTimedOutAt(start: nat, polls: seq<Poll>, i: int)
    requires 0 <= i < |polls|
  {
    polls[i].lockHeld && polls[i].now > start + TIME_OUT_SECS && LockWaitedBefore(start, polls, i)
  }

  /** Some poll ends the inner loop by finding the lock free. */
  predicate LockFreedAfter(start: nat, polls: seq<Poll>) {
    exists i :: 0 <= i < |polls| && LockFreedAt(start, polls, i)
  }

  /** Some poll ends the inner loop by timing out. */
  predicate LockTimedOutAfter(start: nat, polls: seq<Poll>) {
    exists i :: 0 <= i < |polls| && LockTimedOutAt(start, polls, i)
  }

  /**
   * The inner loop: waits for the lock to be free, then takes it. The lock
   * test comes before the time-out test, and the last-use time is not
   * refreshed here.
   */
  function AwaitLock(s: Shared, start: nat, polls: seq<Poll>): (r: (Shared, UseOutcome))
    requires NotBefore(start, polls)
    ensures r.0 == s.(lock := r.0.lock)
    ensures polls != [] ==> r.0.lock
    ensures r.1 == Acquired ==> exists i :: 0 <= i < |polls| && !polls[i].lockHeld
    ensures r.1 == Acquired ==> forall i :: 0 <= i < |polls| && polls[i].now > start + TIME_OUT_SECS ==> exists j :: 0 <= j <= i && !polls[j].lockHeld
    ensures r.1.Failed? ==> r.1.error == TimeOut && exists i :: 0 <= i < |polls| && polls[i].now > start + TIME_OUT_SECS
    ensures r.1 == StillWaiting <==> forall i :: 0 <= i < |polls| ==> polls[i].lockHeld && polls[i].now <= start + TIME_OUT_SECS
    ensures r.1 == Acquired <==> LockFreedAfter(start, polls)
    ensures r.1 == Failed(TimeOut) <==> LockTimedOutAfter(start, polls)
    decreases |polls|
  {
    if polls == [] then (s, StillWaiting)
    else
      var p := polls[0];
      if !p.lockHeld then
        assert LockFreedAt(start, polls, 0);
        LockEndUnique(start, polls);
        (s.(lock := true), Acquired)
      else if p.now - start > TIME_OUT_SECS then
        assert LockTimedOutAt(start, polls, 0);
        LockEndUnique(start, polls);
        (s.(lock := true), Failed(TimeOut))
      else
        var r := AwaitLock(s.(lock := true), start, polls[1..]);
        assert forall i :: 1 <= i < |polls| ==> polls[i] == polls[1..][i - 1];
        LockWaitStep(start, polls, r.1);
        r
  }

  /** The poll at which the inner loop ends is unique. */
  lemma LockEndUnique(start: nat, polls: seq<Poll>)
    ensures forall i, j ::
      (0 <= i < |polls| && 0 <= j < |polls| &&
       (LockFreedAt(start, polls, i) || LockTimedOutAt(start, polls, i)) &&
       (LockFreedAt(start, polls, j) || LockTimedOutAt(start, polls, j))) ==> i == j
  {
  }

  /** A poll at which the inner loop goes on waiting carries its outcome over from the later polls. */
  lemma LockWaitStep(start: nat, polls: seq<Poll>, r: UseOutcome)
    requires polls != [] && polls[0].lockHeld && polls[0].now <= start + TIME_OUT_SECS
    requires r == Acquired <==> LockFreedAfter(start, polls[1..])
    requires r == Failed(TimeOut) <==> LockTimedOutAfter(start, polls[1..])
    ensures r == Acquired <==> LockFreedAfter(start, polls)
    ensures r == Failed(TimeOut) <==> LockTimedOutAfter(start, polls)
  {
    var tail := polls[1..];
    forall i | 0 <= i < |tail|
      ensures LockFreedAt(start, polls, i + 1) <==> LockFreedAt(start, tail, i)
      ensures LockTimedOutAt(start, polls, i + 1) <==> LockTimedOutAt(start, tail, i)
    {
      assert forall j :: 0 <= j < i ==> tail[j] == polls[j + 1];
    }
    if LockFreedAfter(start, polls) {
      var i :| 0 <= i < |polls| && LockFreedAt(start, polls, i);
      assert i != 0 && LockFreedAt(start, tail, i - 1);
    }
    if LockTimedOutAfter(start, polls) {
      var i :| 0 <= i < |polls| && LockTimedOutAt(start, polls, i);
      assert i != 0 && LockTimedOutAt(start, tail, i - 1);
    }
    if LockFreedAfter(start, tail) {
      var i :| 0 <= i < |tail| && LockFreedAt(start, tail, i);
      assert LockFreedAt(start, polls, i + 1);
    }
    if LockTimedOutAfter(start, tail) {
      var i :| 0 <= i < |tail| && LockTimedOutAt(start, tail, i);
      assert LockTimedOutAt(start, polls, i + 1);
    }
  }

  /** Up to poll `i` the outer loop went on waiting: the link was down and the time-out had not passed. */
  predicate LinkWaitedBefore(start: nat, polls: seq<Poll>, i: int)
    requires 0 <= i <= |polls|
  {
    forall j :: 0 <= j < i ==> !polls[j].linkUp && polls[j].now <= start + TIME_OUT_SECS
  }

  /** The outer loop ends at poll `i` by finding the link up. */
  predicate LinkUpAt(start: nat, polls: seq<Poll>, i: int)
    requires 0 <= i < |polls|
  {
    polls[i].linkUp && LinkWaitedBefore(start, polls, i)
  }

  /** The outer loop ends at poll `i` by timing out with the link still down. */
  predicate LinkTimedOutAt(start: nat, polls: seq<Poll>, i: int)
    requires 0 <= i < |polls|
  {
    !polls[i].linkUp && polls[i].now > start + TIME_OUT_SECS && LinkWaitedBefore(start, polls, i)
  }

  /** With the link found up at poll `k`, the wait ends as the inner loop does on the later polls, with the last-use time of poll `k`. */
  predicate EndsAtLinkUp(s: Shared, start: nat, polls: seq<Poll>, r: (Shared, UseOutcome))
    requires NotBefore(start, polls)
  {
    forall k :: 0 <= k < |polls| && LinkUpAt(start, polls, k) ==>
      r == AwaitLock(s.(lastUse := polls[k].now), start, polls[k + 1..])
  }

  /** With the time-out passed at poll `k` and the link down, the wait fails with the last-use time of poll `k`. */
  predicate EndsAtLinkTimeOut(s: Shared, start: nat, polls: seq<Poll>, r: (Shared, UseOutcome)) {
    forall k :: 0 <= k < |polls| && LinkTimedOutAt(start, polls, k) ==>
      r == (s.(lastUse := polls[k].now), Failed(TimeOut))
  }

  /** With every poll before the time-out and the link down, the wait goes on, with the last-use time of the last poll. */
  predicate StillAtLastPoll(s: Shared, start: nat, polls: seq<Poll>, r: (Shared, UseOutcome)) {
    polls != [] && LinkWaitedBefore(start, polls, |polls|) ==>
      r == (s.(lastUse := polls[|polls| - 1].now), StillWaiting)
  }

  /**
   * The outer loop: refreshes the last-use time, fails without a registered
   * stack, goes on to the lock once the link is up, and times out after
   * TIME_OUT_SECS otherwise. The last-use time is that of its last poll.
   */
  function AwaitLink(s: Shared, start: nat, polls: seq<Poll>): (r: (Shared, UseOutcome))
    requires NotBefore(start, polls)
    ensures r.0.(lock := s.lock, lastUse := s.lastUse) == s
    ensures r.1 == Failed(Infallible) <==> polls != [] && !s.hasStack
    ensures r.1.Failed? ==> r.1.error == TimeOut || r.1.error == Infallible
    ensures r.1 == Failed(TimeOut) ==> exists i :: 0 <= i < |polls| && polls[i].now > start + TIME_OUT_SECS
    ensures r.1 == Acquired ==> r.0.lock && exists i :: 0 <= i < |polls| && !polls[i].lockHeld
    ensures r.0.lock != s.lock ==> r.0.lock
    ensures polls != [] ==> exists i :: 0 <= i < |polls| && r.0.lastUse == polls[i].now
    ensures polls == [] ==> r == (s, StillWaiting)
    ensures !s.hasStack && polls != [] ==> r == (s.(lastUse := polls[0].now), Failed(Infallible))
    ensures s.hasStack ==> EndsAtLinkUp(s, start, polls, r)
    ensures s.hasStack ==> EndsAtLinkTimeOut(s, start, polls, r)
    ensures s.hasStack ==> StillAtLastPoll(s, start, polls, r)
    decreases |polls|
  {
    if polls == [] then (s, StillWaiting)
    else
      var p := polls[0];
      var s1 := s.(lastUse := p.now);
      assert forall i :: 1 <= i < |polls| ==> polls[i] == polls[1..][i - 1];
      if !s.hasStack then (s1, Failed(Infallible))
      else if p.linkUp then
        var r := AwaitLock(s1, start, polls[1..]);
        LinkEndsFirst(s, start, polls, r);
        r
      else if p.now - start > TIME_OUT_SECS then
        LinkEndsFirst(s, start, polls, (s1, Failed(TimeOut)));
        (s1, Failed(TimeOut))
      else
        var r := AwaitLink(s1, start, polls[1..]);
        LinkWaitStep(s, start, polls, r);
        r
  }

  /** When the outer loop ends at its first poll, only that poll can be its end. */
  lemma LinkEndsFirst(s: Shared, start: nat, polls: seq<Poll>, r: (Shared, UseOutcome))
    requires NotBefore(start, polls) && polls != []
    requires polls[0].linkUp ==> r == AwaitLock(s.(lastUse := polls[0].now), start, polls[1..])
    requires !polls[0].linkUp ==> polls[0].now > start + TIME_OUT_SECS && r == (s.(lastUse := polls[0].now), Failed(TimeOut))
    ensures EndsAtLinkUp(s, start, polls, r) && EndsAtLinkTimeOut(s, start, polls, r) && StillAtLastPoll(s, start, polls, r)
  {
    assert forall k :: 0 < k < |polls| ==> !LinkUpAt(start, polls, k) && !LinkTimedOutAt(start, polls, k);
  }

  /** A poll at which the outer loop goes on waiting carries the end of the wait over from the later polls. */
  lemma LinkWaitStep(s: Shared, start: nat, polls: seq<Poll>, r: (Shared, UseOutcome))
    requires polls != [] && NotBefore(start, polls) && NotBefore(start, polls[1..])
    requires !polls[0].linkUp && polls[0].now <= start + TIME_OUT_SECS
    requires |polls| == 1 ==> r == (s.(lastUse := polls[0].now), StillWaiting)
    requires EndsAtLinkUp(s.(lastUse := polls[0].now), start, polls[1..], r)
    requires EndsAtLinkTimeOut(s.(lastUse := polls[0].now), start, polls[1..], r)
    requires StillAtLastPoll(s.(lastUse := polls[0].now), start, polls[1..], r)
    ensures EndsAtLinkUp(s, start, polls, r) && EndsAtLinkTimeOut(s, start, polls, r) && StillAtLastPoll(s, start, polls, r)
  {
    var tail := polls[1..];
    forall k | 0 <= k <= |tail|
      ensures LinkWaitedBefore(start, polls, k + 1) <==> LinkWaitedBefore(start, tail, k)
    {
      assert forall j :: 0 <= j < k ==> tail[j] == polls[j + 1];
    }
    forall k | 0 <= k < |polls| && LinkUpAt(start, polls, k)
      ensures r == AwaitLock(s.(lastUse := polls[k].now), start, polls[k + 1..])
    {
      assert k != 0 && LinkUpAt(start, tail, k - 1);
      assert tail[k..] == polls[k + 1..];
    }
    forall k | 0 <= k < |polls| && LinkTimedOutAt(start, polls, k)
      ensures r == (s.(lastUse := polls[k].now), Failed(TimeOut))
    {
      assert k != 0 && LinkTimedOutAt(start, tail, k - 1);
    }
  }

  /** The outer loop either waits through every poll or ends at one, with the link up or timed out. */
  lemma {:induction false} LinkWaitEnds(start: nat, polls: seq<Poll>)
    ensures LinkWaitedBefore(start, polls, |polls|) ||
      exists k :: 0 <= k < |polls| && (LinkUpAt(start, polls, k) || LinkTimedOutAt(start, polls, k))
    decreases |polls|
  {
    if polls == [] {
    } else if !polls[0].linkUp && polls[0].now <= start + TIME_OUT_SECS {
      var tail := polls[1..];
      LinkWaitEnds(start, tail);
      forall k | 0 <= k <= |tail|
        ensures LinkWaitedBefore(start, polls, k + 1) <==> LinkWaitedBefore(start, tail, k)
      {
        assert forall j :: 0 <= j < k ==> tail[j] == polls[j + 1];
      }
      if k :| 0 <= k < |tail| && (LinkUpAt(start, tail, k) || LinkTimedOutAt(start, tail, k)) {
        assert LinkUpAt(start, polls, k + 1) || LinkTimedOutAt(start, polls, k + 1);
      }
    } else {
      assert LinkUpAt(start, polls, 0) || LinkTimedOutAt(start, polls, 0);
    }
  }

  /** The poll at which the outer loop ends is unique, and no wait both ends and runs through every poll. */
  lemma LinkEndUnique(start: nat, polls: seq<Poll>)
    ensures forall k, m ::
      (0 <= k < |polls| && 0 <= m < |polls| &&
       (LinkUpAt(start, polls, k) || LinkTimedOutAt(start, polls, k)) &&
       (LinkUpAt(start, polls, m) || LinkTimedOutAt(start, polls, m))) ==> k == m
    ensures forall k :: 0 <= k < |polls| && (LinkUpAt(start, polls, k) || LinkTimedOutAt(start, polls, k)) ==>
      !LinkWaitedBefore(start, polls, |polls|)
  {
  }

  /**
   * The outcome of the wait in terms of the polls alone: the lock is taken
   * iff, with a stack registered, the link is found up before the time-out
   * and the lock is then found free before it; the wait times out iff it
   * passes the time-out at the link or, after finding the link up, at the lock.
   */
  lemma AwaitLinkOutcome(s: Shared, start: nat, polls: seq<Poll>)
    requires NotBefore(start, polls)
    ensures AwaitLink(s, start, polls).1 == Acquired <==>
      s.hasStack && (exists k :: 0 <= k < |polls| && LinkUpAt(start, polls, k) && LockFreedAfter(start, polls[k + 1..]))
    ensures AwaitLink(s, start, polls).1 == Failed(TimeOut) <==>
      s.hasStack && (exists k :: 0 <= k < |polls| && (LinkTimedOutAt(start, polls, k) ||
                                                       (LinkUpAt(start, polls, k) && LockTimedOutAfter(start, polls[k + 1..]))))
  {
    LinkWaitEnds(start, polls);
    LinkEndUnique(start, polls);
  }

  /** Poll `k` of the outer loop, with the last-use time it sets. */
  lemma AwaitLinkStep(s: Shared, start: nat, polls: seq<Poll>, k: nat)
    requires NotBefore(start, polls) && k < |polls|
    ensures NotBefore(start, polls[k + 1..])
    ensures var p, s1 := polls[k], s.(lastUse := polls[k].now);
      AwaitLink(s, start, polls[k..]) ==
        if !s.hasStack then (s1, Failed(Infallible))
        else if p.linkUp then AwaitLock(s1, start, polls[k + 1..])
        else if p.now - start > TIME_OUT_SECS then (s1, Failed(TimeOut))
        else AwaitLink(s1, start, polls[k + 1..])
  {
    assert polls[k..][0] == polls[k] && polls[k..][1..] == polls[k + 1..];
  }

  /** `use_wifi` called at second `start` and observing `polls`. */
  function UseWifi(s: Shared, start: nat, polls: seq<Poll>): (Shared, UseOutcome)
    requires NotBefore(start, polls)
  {
    AwaitLink(Enter(s), start, polls)
  }

  /** Once more than TIME_OUT_SECS have passed, the next poll ends the wait, at the lock or at the link. */
  lemma {:induction false} TimeOutEndsWait(s: Shared, start: nat, polls: seq<Poll>)
    requires NotBefore(start, polls) && s.hasStack && |polls| >= 2
    requires start + TIME_OUT_SECS < polls[0].now <= polls[1].now
    ensures AwaitLink(s, start, polls).1 != StillWaiting
  {
    var tail := polls[1..];
    if polls[0].linkUp {
      assert tail[0] == polls[1];
    }
  }

  /** Without a registered stack every call fails with `Infallible` at its first poll. */
  lemma NoStackInfallible(s: Shared, start: nat, polls: seq<Poll>)
    requires NotBefore(start, polls) && !s.hasStack && polls != []
    ensures UseWifi(s, start, polls) == (Enter(s).(lastUse := polls[0].now), Failed(Infallible))
  {
  }

  // ---------------------------------------------------------------------------
  // finish_wifi and do_stop

  /** `finish_wifi`: the lock is cleared unconditionally. */
  function Finish(s: Shared): (r: Shared)
    ensures !r.lock && r.(lock := s.lock) == s
  {
    s.(lock := false)
  }

  /** One `do_stop` tick at second `now`. */
  function DoStop(s: Shared, now: nat): (r: Shared)
    requires s.lastUse <= now
    ensures r != s ==> r == s.(stopSignal := true, lock := false)
    ensures r.stopSignal && !r.lock <==>
      (s.state == Connected && now - s.lastUse > HOW_LONG_SECS_CLOSE) || (s.stopSignal && !s.lock)
    ensures !(s.state == Connected && now - s.lastUse > HOW_LONG_SECS_CLOSE) ==> r == s
  {
    if s.state == Connected && now - s.lastUse > HOW_LONG_SECS_CLOSE then Finish(s.(stopSignal := true))
    else s
  }

  // ---------------------------------------------------------------------------
  // connection_wifi

  /** What resumes the connection task. */
  datatype ConnEvent =
    | DriverAnswer(staConnected: bool)  // `get_wifi_state()` at the top of the loop
    | LinkLost                          // the `StaDisconnected` event
    | StopWake                          // the stop signal, as seen by `select`
    | ReconnectWake                     // the reconnect signal
    | ConnectCall                       // the connection task reaches `connect`
    | ConnectResult(ok: bool)           // `connect` returns

  /**
   * One resumption of `connection_wifi`. An event the connection task is not waiting
   * for changes nothing. At `select` the disconnect event is listed first,
   * so it wins when both are ready, and a pending stop signal then stays set.
   */
  function Connection(s: Shared, ev: ConnEvent): (r: Shared)
    ensures r.(state := s.state, phase := s.phase, stopSignal := s.stopSignal, reconnectSignal := s.reconnectSignal) == s
    ensures Consistent(s) ==> Consistent(r) && Allowed(s.state, r.state)
    ensures Consistent(s) && r.stopSignal != s.stopSignal ==> s.stopSignal && r.state == Stopped && s.state == Connected
    ensures Consistent(s) && r.reconnectSignal != s.reconnectSignal ==> s.reconnectSignal && s.state == Stopped && r.state == Disconnected
    ensures Consistent(s) && s.state == Stopped && r.state != Stopped ==> s.phase == CheckDriver || s.reconnectSignal
    ensures s.phase == AwaitDrop && ev == LinkLost ==> r.state == Disconnected && r.stopSignal == s.stopSignal
  {
    match (s.phase, ev)
    case (CheckDriver, DriverAnswer(up)) =>
      if up then s.(state := Connected, phase := AwaitDrop) else s.(state := Disconnected, phase := StartConnect)
    case (AwaitDrop, LinkLost) => s.(state := Disconnected, phase := StartConnect)
    case (AwaitDrop, StopWake) =>
      if s.stopSignal then s.(stopSignal := false, state := Stopped, phase := AwaitReconnect) else s
    case (AwaitReconnect, ReconnectWake) =>
      if s.reconnectSignal then s.(reconnectSignal := false, state := Disconnected, phase := StartConnect) else s
    case (StartConnect, ConnectCall) => s.(state := Connecting, phase := AwaitConnect)
    case (AwaitConnect, ConnectResult(ok)) =>
      if ok then s.(state := Connected, phase := CheckDriver) else s.(phase := CheckDriver)
    case _ => s
  }

  function RunConnection(s: Shared, evs: seq<ConnEvent>): Shared
    decreases |evs|
  {
    if evs == [] then s else RunConnection(Connection(s, evs[0]), evs[1..])
  }

  /** Every run of the connection task keeps the state consistent with its position. */
  lemma {:induction false} RunKeepsConsistent(s: Shared, evs: seq<ConnEvent>)
    requires Consistent(s)
    ensures Consistent(RunConnection(s, evs))
    decreases |evs|
  {
    if evs != [] {
      RunKeepsConsistent(Connection(s, evs[0]), evs[1..]);
    }
  }

  /** After a stop, the state stays Stopped until the connection task wakes with the reconnect signal raised. */
  lemma {:induction false} StoppedUntilReconnect(s: Shared, evs: seq<ConnEvent>)
    requires s.phase == AwaitReconnect && s.state == Stopped
    requires !s.reconnectSignal || forall i :: 0 <= i < |evs| ==> evs[i] != ReconnectWake
    ensures RunConnection(s, evs).state == Stopped
    decreases |evs|
  {
    if evs != [] {
      assert forall i :: 1 <= i < |evs| ==> evs[i] == evs[1..][i - 1];
      StoppedUntilReconnect(Connection(s, evs[0]), evs[1..]);
    }
  }

  /** A stop requested while connected leads to Stopped, then a reconnect to Disconnected and a new attempt. */
  lemma StopThenReconnect(s: Shared)
    requires s.phase == AwaitDrop && s.state == Connected && s.stopSignal
    ensures RunConnection(s, [StopWake]).state == Stopped
    ensures !RunConnection(s, [StopWake]).stopSignal
    ensures RunConnection(s.(reconnectSignal := true), [StopWake, ReconnectWake]).state == Disconnected
    ensures RunConnection(s.(reconnectSignal := true), [StopWake, ReconnectWake, ConnectCall]).state == Connecting
  {
    var t := s.(reconnectSignal := true);
    assert RunConnection(t, [StopWake, ReconnectWake]) == RunConnection(Connection(t, StopWake), [ReconnectWake]);
    assert RunConnection(t, [StopWake, ReconnectWake, ConnectCall])
      == RunConnection(Connection(Connection(t, StopWake), ReconnectWake), [ConnectCall]);
  }

  /** A failed attempt leaves the state Connecting; a successful one makes it Connected. */
  lemma ConnectOutcome(s: Shared, ok: bool)
    requires s.phase == StartConnect
    ensures RunConnection(s, [ConnectCall, ConnectResult(ok)]).state == if ok then Connected else Connecting
  {
    var t := Connection(s, ConnectCall);
    assert RunConnection(s, [ConnectCall, ConnectResult(ok)]) == RunConnection(t, [ConnectResult(ok)]);
    assert RunConnection(t, [ConnectResult(ok)]) == RunConnection(Connection(t, ConnectResult(ok)), []);
  }

  // ---------------------------------------------------------------------------
  // The statics as mutable state

  class WifiBroker {
    var state: NetState
    var lock: bool
    var lastUse: nat
    var stopSignal: bool
    var reconnectSignal: bool
    var hasStack: bool
    var phase: Phase

    function Snap(): Shared
      reads this
    {
      Shared(state, lock, lastUse, stopSignal, reconnectSignal, hasStack, phase)
    }

    constructor ()
      ensures Snap() == BOOT
    {
      state, lock, lastUse := Stopped, false, 0;
      stopSignal, reconnectSignal, hasStack := false, false, false;
      phase := CheckDriver;
    }

    /** `connect_wifi` registers the station stack. */
    method RegisterStack()
      modifies this
      ensures Snap() == old(Snap()).(hasStack := true)
    {
      hasStack := true;
    }

    /** `refresh_last_time` */
    method RefreshLastTime(now: nat)
      modifies this
      ensures Snap() == old(Snap()).(lastUse := now)
    {
      lastUse := now;
    }

    /**
     * `use_wifi`: the two nested polling loops. The lock value each inner
     * poll reads is the one the other tasks left.
     */
    method UseWifiCall(start: nat, polls: seq<Poll>) returns (out: UseOutcome)
      requires NotBefore(start, polls)
      modifies this
      ensures (Snap(), out) == UseWifi(old(Snap()), start, polls)
    {
      if state == Stopped {
        reconnectSignal := true;
      }
      assert Snap() == Enter(old(Snap()));
      out := WaitForLink(start, polls);
    }

    /** The outer loop of `use_wifi`. */
    method WaitForLink(start: nat, polls: seq<Poll>) returns (out: UseOutcome)
      requires NotBefore(start, polls)
      modifies this
      ensures (Snap(), out) == AwaitLink(old(Snap()), start, polls)
    {
      ghost var goal := AwaitLink(Snap(), start, polls);
      var k := 0;
      while k < |polls|
        invariant 0 <= k <= |polls| && NotBefore(start, polls[k..])
        invariant AwaitLink(Snap(), start, polls[k..]) == goal
        decreases |polls| - k
      {
        ghost var before := Snap();
        var p := polls[k];
        lastUse := p.now;
        AwaitLinkStep(before, start, polls, k);
        if !hasStack {
          return Failed(Infallible);
        }
        if p.linkUp {
          out := WaitForLock(start, polls[k + 1..]);
          return;
        }
        if p.now - start > TIME_OUT_SECS {
          return Failed(TimeOut);
        }
        k := k + 1;
      }
      assert polls[k..] == [];
      return StillWaiting;
    }

    /** The inner loop of `use_wifi`, from the poll after the one that found the link up. */
    method WaitForLock(start: nat, polls: seq<Poll>) returns (out: UseOutcome)
      requires NotBefore(start, polls)
      modifies this
      ensures (Snap(), out) == AwaitLock(old(Snap()), start, polls)
    {
      ghost var goal := AwaitLock(old(Snap()), start, polls);
      var k := 0;
      while k < |polls|
        invariant 0 <= k <= |polls| && NotBefore(start, polls[k..])
        invariant AwaitLock(Snap(), start, polls[k..]) == goal
        decreases |polls| - k
      {
        assert polls[k..][0] == polls[k] && polls[k..][1..] == polls[k + 1..];
        var q := polls[k];
        lock := true;
        if !q.lockHeld {
          return Acquired;
        }
        if q.now - start > TIME_OUT_SECS {
          return Failed(TimeOut);
        }
        k := k + 1;
      }
      assert polls[k..] == [];
      return StillWaiting;
    }

    /** `finish_wifi` */
    method FinishWifi()
      modifies this
      ensures Snap() == Finish(old(Snap()))
    {
      lock := false;
    }

    /** One pass of the `do_stop` loop. */
    method DoStopTick(now: nat)
      requires lastUse <= now
      modifies this
      ensures Snap() == DoStop(old(Snap()), now)
    {
      if state == Connected {
        if now - lastUse > HOW_LONG_SECS_CLOSE {
          stopSignal := true;
          lock := false;
        }
      }
    }

    /** `connection_wifi` resumed by `ev`. */
    method ConnectionStep(ev: ConnEvent)
      modifies this
      ensures Snap() == Connection(old(Snap()), ev)
    {
      match (phase, ev) {
        case (CheckDriver, DriverAnswer(up)) =>
          if up {
            state, phase := Connected, AwaitDrop;
          } else {
            state, phase := Disconnected, StartConnect;
          }
        case (AwaitDrop, LinkLost) =>
          state, phase := Disconnected, StartConnect;
        case (AwaitDrop, StopWake) =>
          if stopSignal {
            stopSignal := false;
            state, phase := Stopped, AwaitReconnect;
          }
        case (AwaitReconnect, ReconnectWake) =>
          if reconnectSignal {
            reconnectSignal := false;
            state, phase := Disconnected, StartConnect;
          }
        case (StartConnect, ConnectCall) =>
          state, phase := Connecting, AwaitConnect;
        case (AwaitConnect, ConnectResult(ok)) =>
          if ok {
            state := Connected;
          }
          phase := CheckDriver;
        case _ =>
      }
    }
  }
}
