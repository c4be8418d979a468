/**
 * Deep sleep after inactivity. The last-active instant is refreshed on
 * user activity; `to_sleep` compares the idle time against it and, when
 * the device has been idle long enough, stops Wi-Fi and enters deep sleep
 * with the registered RTC-IO pins and, for a nonzero sleep time, a timer
 * as wake sources. Instants and durations are counted in timer ticks.
 */
module Sleep {
  import opened Heapless

  /** `Instant::MAX`: the tick counter is a u64. */
  const INSTANT_MAX: nat := 0xFFFF_FFFF_FFFF_FFFF
  /** The capacity of the wake-up pin list. */
  const PIN_CAPACITY: nat := 5

  datatype WakeupLevel = Low | High

  /** A registered pin and the level that wakes the chip. */
  datatype WakeupPin = WakeupPin(pin: nat, level: WakeupLevel)

  /** A wake source handed to `sleep_deep`. */
  datatype WakeSource = Rtcio(pins: seq<WakeupPin>) | Timer(ticks: nat)

  /** What `to_sleep` does, in order. */
  datatype Effect = ForceStopWifi | SleepDeep(sources: seq<WakeSource>)

  /** The end of a `to_sleep` call; `Panicked` where `duration_since` underflows. */
  datatype SleepOutcome = Panicked | Awake | Slept(effects: seq<Effect>)

  /** The wake sources: the RTC-IO pins first, then the timer if the sleep time is nonzero. */
  function WakeSources(pins: seq<WakeupPin>, sleepTicks: nat): (ws: seq<WakeSource>)
    ensures 1 <= |ws| <= 2 && ws[0] == Rtcio(pins)
    ensures Timer(sleepTicks) in ws <==> sleepTicks > 0
    ensures |ws| == 2 <==> sleepTicks > 0
  {
    PushBounded(PushBounded([], Rtcio(pins), 2), Timer(sleepTicks), if sleepTicks > 0 then 2 else 1)
  }

  /** `to_sleep` as written: `duration_since` panics if the last-active instant lies ahead of now. */
  function SleepDecision(lastActive: nat, pins: seq<WakeupPin>, now: nat, sleepTicks: nat, idleTicks: nat): (r: SleepOutcome)
    ensures r.Panicked? <==> now < lastActive
    ensures r.Slept? <==> lastActive <= now && now - lastActive > idleTicks
    ensures r.Slept? ==> r.effects == [ForceStopWifi, SleepDeep(WakeSources(pins, sleepTicks))]
  {
    if now < lastActive then Panicked
    else if now - lastActive > idleTicks then Slept([ForceStopWifi, SleepDeep(WakeSources(pins, sleepTicks))])
    else Awake
  }

  /**
   * Before the first refresh the last-active instant is `Instant::MAX`, so
   * `to_sleep` panics; the boot sequence refreshes it before any page runs.
   */
  lemma SleepBeforeRefreshPanics(pins: seq<WakeupPin>, now: nat, sleepTicks: nat, idleTicks: nat)
    requires now < INSTANT_MAX
    ensures SleepDecision(INSTANT_MAX, pins, now, sleepTicks, idleTicks) == Panicked
  {
  }

  /** The sleep manager's statics: `LAST_ACTIVE_TIME` and `WAKEUP_PINS`. */
  class SleepManager {
    var lastActive: nat
    var pins: seq<WakeupPin>

    ghost predicate Valid()
      reads this
    {
      |pins| <= PIN_CAPACITY
    }

    /** The statics' initial values: `Instant::MAX` and no pins. */
    constructor ()
      ensures Valid() && lastActive == INSTANT_MAX && pins == []
    {
      lastActive := INSTANT_MAX;
      pins := [];
    }

    /** `refresh_active_time` */
    method RefreshActiveTime(now: nat)
      modifies this
      ensures lastActive == now && pins == old(pins)
    {
      lastActive := now;
    }

    /** `add_rtcio`: appends while fewer than five pins are stored, drops the pin otherwise. */
    method AddRtcio(pin: nat, level: WakeupLevel)
      requires Valid()
      modifies this
      ensures Valid() && lastActive == old(lastActive)
      ensures pins == PushBounded(old(pins), WakeupPin(pin, level), PIN_CAPACITY)
    {
      if |pins| < PIN_CAPACITY {
        pins := pins + [WakeupPin(pin, level)];
      }
    }

    /** `to_sleep` at instant `now`; the effects are returned in the order they happen. */
    method ToSleep(now: nat, sleepTicks: nat, idleTicks: nat) returns (r: SleepOutcome)
      ensures r == SleepDecision(lastActive, pins, now, sleepTicks, idleTicks)
    {
      if now < lastActive {
        return Panicked;
      }
      if now - lastActive > idleTicks {
        var effects := [ForceStopWifi];
        var ws: seq<WakeSource> := [];
        ws := ws + [Rtcio(pins)];
        if sleepTicks > 0 {
          ws := ws + [Timer(sleepTicks)];
        }
        effects := effects + [SleepDeep(ws)];
        return Slept(effects);
      }
      return Awake;
    }
  }
}
