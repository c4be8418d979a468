/**
 * The settings page (`SettingPage`): shows the configuration URL of the
 * web service as a QR code while the page runs; a short press of the push
 * key leaves the page, and holding it for more than five seconds clears
 * the stored "Wi-Fi configured" flag and restarts the device, so that it
 * comes back up in configuration mode.
 */
module SettingPage {
  import opened Wrappers
  import opened RustStr
  import opened Heapless
  import opened Event
  import opened Pages
  import opened Storage
  import opened Wifi

  const URL_CAPACITY: nat := 50
  const URL_SCHEME: string := "http://"
  const URL_SUFFIX: string := ":8080/config"
  /** A hold longer than this many seconds resets the device. */
  const RESET_HOLD_SECS: nat := 5

  const EVENTS: seq<EventType> := [KeyShort(5), KeyLongStart(5), KeyLongIng(5)]

  /** The URL `render` encodes: three pushes into a 50-byte string, each dropped if it does not fit. */
  function Url(ip: string): string {
    PushThree(URL_SCHEME, ip, URL_SUFFIX, URL_CAPACITY)
  }

  function PushThree(a: string, b: string, c: string, capacity: nat): string {
    PushStr(PushStr(PushStr("", a, capacity), b, capacity), c, capacity)
  }

  lemma PushThreeShape(a: string, b: string, c: string, capacity: nat)
    requires Utf8Len(a) <= capacity
    ensures Utf8Len(a) + Utf8Len(b) + Utf8Len(c) <= capacity ==> PushThree(a, b, c, capacity) == a + b + c
    ensures Utf8Len(a) + Utf8Len(b) <= capacity < Utf8Len(a) + Utf8Len(b) + Utf8Len(c) ==> PushThree(a, b, c, capacity) == a + b
    ensures Utf8Len(a) + Utf8Len(c) <= capacity < Utf8Len(a) + Utf8Len(b) ==> PushThree(a, b, c, capacity) == a + c
  {
    assert "" + a == a;
    Utf8LenConcat(a, b);
    Utf8LenConcat(a + b, c);
    Utf8LenConcat(a, c);
  }

  /**
   * The URL is the scheme, the address and the page's port and path for
   * any address of up to 31 bytes (an IPv4 address takes at most 15); a
   * longer address loses the suffix, and one too long to fit at all is
   * left out.
   */
  lemma UrlShape(ip: string)
    ensures Utf8Len(ip) <= 31 ==> Url(ip) == URL_SCHEME + ip + URL_SUFFIX
    ensures 31 < Utf8Len(ip) <= 43 ==> Url(ip) == URL_SCHEME + ip
    ensures 43 < Utf8Len(ip) ==> Url(ip) == URL_SCHEME + URL_SUFFIX
  {
    UrlPartLengths();
    PushThreeShape(URL_SCHEME, ip, URL_SUFFIX, URL_CAPACITY);
  }

  lemma UrlPartLengths()
    ensures Utf8Len(URL_SCHEME) == 7 && Utf8Len(URL_SUFFIX) == 12
  {
    Utf8LenAscii(URL_SCHEME);
    Utf8LenAscii(URL_SUFFIX);
  }

  /**
   * The `KeyLongIng` handler's timing: a start second of 0 means none was
   * recorded and is replaced by the current one; the reset is due when
   * more than five seconds have passed since the start.
   */
  function HoldStart(start: nat, now: nat): nat {
    if start == 0 then now else start
  }

  predicate ResetDue(start: nat, now: nat)
    requires HoldStart(start, now) <= now
  {
    now - HoldStart(start, now) > RESET_HOLD_SECS
  }

  /** The first report of a hold with no recorded start never resets; the reset comes once more than five seconds have passed. */
  lemma ResetTiming(start: nat, now: nat)
    requires start <= now
    ensures start == 0 ==> !ResetDue(start, now)
    ensures start > 0 ==> (ResetDue(start, now) <==> now > start + RESET_HOLD_SECS)
  {
  }

  /** A round of `run`: the time it refreshes the Wi-Fi last use with, and whether a short press arrives during its pause. */
  datatype Round = Round(now: nat, leave: bool)

  /** The number of rounds `run` makes: up to and including the first with a short press. */
  function RoundsRun(rounds: seq<Round>): (n: nat)
    ensures n <= |rounds|
    ensures 0 < n < |rounds| ==> rounds[n - 1].leave
    ensures forall j :: 0 <= j < n - 1 ==> !rounds[j].leave
    ensures n == |rounds| ==> forall j :: 0 <= j < |rounds| - 1 ==> !rounds[j].leave
    ensures n == 0 <==> rounds == []
    decreases |rounds|
  {
    if rounds == [] then 0
    else if rounds[0].leave then 1
    else 1 + RoundsRun(rounds[1..])
  }

  predicate Left(rounds: seq<Round>) {
    exists j :: 0 <= j < |rounds| && rounds[j].leave
  }

  /** The loop ends exactly in the round of the first short press. */
  lemma {:induction false} RoundsEndAtLeave(rounds: seq<Round>)
    ensures Left(rounds) <==> RoundsRun(rounds) > 0 && rounds[RoundsRun(rounds) - 1].leave
    decreases |rounds|
  {
    if rounds != [] && !rounds[0].leave {
      RoundsEndAtLeave(rounds[1..]);
      if Left(rounds) {
        var j :| 0 <= j < |rounds| && rounds[j].leave;
        assert rounds[1..][j - 1].leave;
      }
      if Left(rounds[1..]) {
        var j :| 0 <= j < |rounds[1..]| && rounds[1..][j].leave;
        assert rounds[j + 1].leave;
      }
    }
  }

  class SettingPage {
    var needRender: bool
    var running: bool
    var longStartTime: nat
    var ip: string

    /** `SettingPage::new` */
    constructor ()
      ensures !needRender && !running && longStartTime == 0 && ip == ""
    {
      needRender, running := false, false;
      longStartTime := 0;
      ip := "";
    }

    /** `render`: with a display, the QR code of the URL of the address the connection got. */
    method Render(display: bool, address: string) returns (qr: Option<string>)
      modifies this
      ensures needRender == false && running == old(running) && longStartTime == old(longStartTime) && ip == old(ip)
      ensures qr.Some? <==> old(needRender) && display
      ensures qr.Some? ==> qr.value == Url(address)
    {
      qr := None;
      if needRender {
        needRender := false;
        if display {
          var url := "";
          url := PushStr(url, URL_SCHEME, URL_CAPACITY);
          url := PushStr(url, address, URL_CAPACITY);
          url := PushStr(url, URL_SUFFIX, URL_CAPACITY);
          qr := Some(url);
        }
      }
    }

    /** The `KeyShort(5)` handler: leave the page. */
    method OnShortPress()
      modifies this
      ensures !running && needRender == old(needRender) && longStartTime == old(longStartTime) && ip == old(ip)
    {
      running := false;
    }

    /** The `KeyLongStart(5)` handler: record when the hold began. */
    method OnLongStart(now: nat)
      modifies this
      ensures longStartTime == now && running == old(running) && needRender == old(needRender) && ip == old(ip)
    {
      longStartTime := now;
    }

    /**
     * The `KeyLongIng(5)` handler, with the monotonic time `now`: once the
     * reset is due and the Wi-Fi record is loaded, write it back with the
     * configured flag cleared and restart (`reset`).
     */
    method OnLongHold(now: nat, nvs: Nvs, flashOk: bool) returns (reset: bool)
      requires longStartTime <= now && nvs.Valid()
      modifies this, nvs
      ensures nvs.Valid()
      ensures longStartTime == HoldStart(old(longStartTime), now)
      ensures running == old(running) && needRender == old(needRender) && ip == old(ip)
      ensures reset <==> ResetDue(old(longStartTime), now) && old(nvs.wifiInfo).Some?
      ensures reset ==> nvs.wifiInfo == Some(old(nvs.wifiInfo).value.(finish := false))
      ensures reset ==> nvs.flash == Write(old(nvs.flash), Wifi(old(nvs.wifiInfo).value.(finish := false)), flashOk).0
      ensures !reset ==> nvs.wifiInfo == old(nvs.wifiInfo) && nvs.flash == old(nvs.flash)
    {
      reset := false;
      if longStartTime == 0 {
        longStartTime := now;
      }
      if now - longStartTime > 5 {
        if nvs.wifiInfo.Some? {
          var info := nvs.wifiInfo.value.(finish := false);
          nvs.wifiInfo := Some(info);
          var _ := nvs.WriteRecord(Wifi(info), flashOk);
          reset := true;
        }
      }
    }

    /** `bind_event`: the three handlers of the push key, each passed this page. */
    method BindEvent(bus: EventBus, pagePtr: nat)
      requires bus.Valid()
      modifies bus
      ensures bus.Valid() && bus.listeners == Table(EVENTS, Some(pagePtr))
    {
      bus.Clear();
      bus.OnTarget(KeyShort(5), pagePtr, 0);
      bus.OnTarget(KeyLongStart(5), pagePtr, 1);
      bus.OnTarget(KeyLongIng(5), pagePtr, 2);
      assert bus.listeners == Table(EVENTS, Some(pagePtr));
    }

    /**
     * `run`: while `running`, refresh the Wi-Fi last-use time and redraw;
     * once the loop ends, raise the signal that stops the web service.
     */
    method Run(broker: WifiBroker, rounds: seq<Round>, display: bool, address: string) returns (iterations: nat, stopSignalled: bool)
      modifies this, broker
      ensures iterations == RoundsRun(rounds)
      ensures stopSignalled <==> Left(rounds)
      ensures running <==> !Left(rounds)
      ensures iterations > 0 ==> broker.Snap() == old(broker.Snap()).(lastUse := rounds[iterations - 1].now)
      ensures iterations == 0 ==> broker.Snap() == old(broker.Snap())
      ensures longStartTime == old(longStartTime) && ip == old(ip)
    {
      running := true;
      iterations := 0;
      RoundsEndAtLeave(rounds);
      while iterations < |rounds| && running
        invariant 0 <= iterations <= |rounds|
        invariant running <==> forall j :: 0 <= j < iterations ==> !rounds[j].leave
        invariant iterations > 0 ==> broker.Snap() == old(broker.Snap()).(lastUse := rounds[iterations - 1].now)
        invariant iterations == 0 ==> broker.Snap() == old(broker.Snap())
        invariant running ==> RoundsRun(rounds) == iterations + RoundsRun(rounds[iterations..])
        invariant !running ==> RoundsRun(rounds) == iterations
        invariant longStartTime == old(longStartTime) && ip == old(ip)
        decreases |rounds| - iterations
      {
        assert rounds[iterations..][1..] == rounds[iterations + 1..];
        broker.RefreshLastTime(rounds[iterations].now);
        needRender := true;
        var _ := Render(display, address);
        if rounds[iterations].leave {
          OnShortPress();
        }
        iterations := iterations + 1;
      }
      stopSignalled := !running;
    }
  }
}
