/**
 * The clock and its synchronisation. The clock keeps the instant of boot
 * (`sys_start`); the current instant is that plus the milliseconds elapsed
 * since boot. Instants are integer milliseconds since the Unix epoch.
 * `ntp_worker` restores the clock after deep sleep, then resynchronises
 * over NTP once an hour, backing off after repeated failures.
 */
module WorldTime {
  import opened Wrappers
  import opened RustStr
  import opened Gregorian

  const MILLIS_PER_SECOND: nat := 1000
  const MILLIS_PER_DAY: nat := 86_400_000
  /** The local zone is UTC+8:00. */
  const LOCAL_OFFSET_MILLIS: nat := 8 * 3600 * 1000
  const RESYNC_SECS: nat := 3600
  const NTP_PORT: nat := 123
  const U64_MODULUS: nat := 0x1_0000_0000_0000_0000
  /** The last second of the year 9999, the end of the date range. */
  const MAX_UNIX_SECS: nat := 253_402_300_799

  /** `now` at a reading of the boot-relative millisecond counter. */
  function NowAt(sysStart: int, elapsed: nat): (t: int)
    ensures t - elapsed == sysStart
  {
    sysStart + elapsed
  }

  /** The clock advances by exactly the elapsed milliseconds. */
  lemma NowAdvances(sysStart: int, e1: nat, e2: nat)
    ensures NowAt(sysStart, e2) - NowAt(sysStart, e1) == e2 - e1
  {
  }

  /** The calendar date of an instant in the local zone. */
  function LocalDate(instant: int): (d: Date)
    ensures WellFormed(d)
    ensures DayNumber(d) == UNIX_EPOCH_DAY + (instant + LOCAL_OFFSET_MILLIS) / MILLIS_PER_DAY
  {
    FromDayNumber(UNIX_EPOCH_DAY + (instant + LOCAL_OFFSET_MILLIS) / MILLIS_PER_DAY)
  }

  /** The eight hours of the offset move the local date forward exactly at 16:00 UTC. */
  lemma LocalDateTurnsAtSixteenUtc(day: int)
    ensures DayNumber(LocalDate(day * MILLIS_PER_DAY + 16 * 3600 * 1000 - 1)) == UNIX_EPOCH_DAY + day
    ensures DayNumber(LocalDate(day * MILLIS_PER_DAY + 16 * 3600 * 1000)) == UNIX_EPOCH_DAY + day + 1
  {
    WholeDays(day, MILLIS_PER_DAY - 1);
    WholeDays(day + 1, 0);
  }

  lemma WholeDays(day: int, r: nat)
    requires r < MILLIS_PER_DAY
    ensures (day * MILLIS_PER_DAY + r) / MILLIS_PER_DAY == day
  {
  }

  /** The label `get_week_day` gives each day: Monday is 周一, Sunday is 周日. */
  function WeekdayLabel(d: Date): (s: string)
    requires WellFormed(d)
    ensures |s| == 2 && s[0] == '周'
    ensures DaysFromSunday(d) == 0 <==> s == "周日"
  {
    match DaysFromSunday(d)
    case 0 => "周日"
    case 1 => "周一"
    case 2 => "周二"
    case 3 => "周三"
    case 4 => "周四"
    case 5 => "周五"
    case _ => "周六"
  }

  /** 1970-01-01 was a Thursday. */
  lemma EpochLabel()
    ensures WeekdayLabel(Date(1970, 1, 1)) == "周四"
  {
    EpochIsThursday();
  }

  /** `get_date_str`: year, month and day in decimal without padding, joined by '-'. */
  function DateString(d: Date): string {
    IntToString(d.year) + "-" + NatToString(d.month) + "-" + NatToString(d.day)
  }

  /** Splitting the date text at '-' and parsing the pieces gives the date back, for years from 0 on. */
  lemma DateStringRoundTrip(d: Date)
    requires d.year >= 0
    ensures |Split(DateString(d), "-")| == 3
    ensures Split(DateString(d), "-") == [NatToString(d.year), NatToString(d.month), NatToString(d.day)]
    ensures DigitsValue(Split(DateString(d), "-")[0]) == d.year
    ensures DigitsValue(Split(DateString(d), "-")[1]) == d.month
    ensures DigitsValue(Split(DateString(d), "-")[2]) == d.day
  {
    var y, m, dd := NatToString(d.year), NatToString(d.month), NatToString(d.day);
    var ps := [y, m, dd];
    assert Join(ps, "-") == DateString(d) by {
      assert Join(ps[1..], "-") == m + "-" + dd by {
        assert ps[1..][1..] == [dd];
      }
    }
    forall i | 0 <= i < |ps| ensures SeparatorFree(ps[i], "-") && !Contains(ps[i], "-") {
      NoLeadSeparatorFree(ps[i], "-");
      NoCharNotContains(ps[i], '-');
    }
    SplitJoin(ps, "-");
    DigitsValueOfNatToString(d.year);
    DigitsValueOfNatToString(d.month);
    DigitsValueOfNatToString(d.day);
  }

  /** The clock, whose only state is the instant of boot. */
  class Clock {
    var sysStart: int

    /** `Clock::new`: boot at the Unix epoch. */
    constructor ()
      ensures sysStart == 0
    {
      sysStart := 0;
    }

    function Now(elapsed: nat): int
      reads this
    {
      NowAt(sysStart, elapsed)
    }

    /** `set_time`: after it, `now` at the same counter reading is `t`. */
    method SetTime(t: int, elapsed: nat)
      modifies this
      ensures Now(elapsed) == t
      ensures forall e: nat :: Now(e) == t + e - elapsed
    {
      sysStart := t - elapsed;
    }
  }

  // ---------------------------------------------------------------------------
  // Endpoint conversions

  datatype Ipv4 = Ipv4(a: nat, b: nat, c: nat, d: nat)

  /** `embassy_net::IpAddress` */
  datatype NetAddress = NetV4(v4: Ipv4) | NetV6(segments: seq<nat>)
  datatype IpEndpoint = IpEndpoint(addr: NetAddress, port: nat)

  /** The socket address type of the NTP client. */
  datatype SocketAddr = SockV4(ip: Ipv4, port: nat) | SockV6(segments: seq<nat>, port: nat)

  const UNSPECIFIED := Ipv4(0, 0, 0, 0)

  /** `emb_endpoint_to_sock_addr`: IPv4 keeps its octets, anything else becomes 0.0.0.0; the port is kept. */
  function EndpointToSockAddr(e: IpEndpoint): (s: SocketAddr)
    ensures s.SockV4? && s.port == e.port
    ensures e.addr.NetV4? ==> s.ip == e.addr.v4
    ensures e.addr.NetV6? ==> s.ip == UNSPECIFIED
  {
    match e.addr
    case NetV4(ip) => SockV4(ip, e.port)
    case NetV6(_) => SockV4(UNSPECIFIED, e.port)
  }

  /** `sock_addr_to_emb_endpoint`; None where it reaches `todo!()`, for IPv6. */
  function SockAddrToEndpoint(s: SocketAddr): (r: Option<IpEndpoint>)
    ensures r.Some? <==> s.SockV4?
    ensures r.Some? ==> r.value.port == s.port && r.value.addr == NetV4(s.ip)
  {
    match s
    case SockV4(ip, port) => Some(IpEndpoint(NetV4(ip), port))
    case SockV6(_, _) => None
  }

  /** The conversions are inverse on IPv4. */
  lemma EndpointRoundTrip(e: IpEndpoint, s: SocketAddr)
    ensures e.addr.NetV4? ==> SockAddrToEndpoint(EndpointToSockAddr(e)) == Some(e)
    ensures s.SockV4? ==> EndpointToSockAddr(SockAddrToEndpoint(s).value) == s
  {
  }

  // ---------------------------------------------------------------------------
  // ntp_request

  datatype SntpcError = ToSocketAddrs | NoAddr | UdpSend | DnsQuery | DnsEmptyResponse | Sntc | BadNtpResponse

  /** How the exchange with the server ends: a reply with its seconds, a failed reply, or the 5 s timer. */
  datatype NtpReply = Reply(seconds: nat) | BadReply | TimedOut

  /** The server asked: the last address of the DNS answer, port 123. */
  function NtpServer(answer: seq<Ipv4>): SocketAddr
    requires answer != []
  {
    SockV4(answer[|answer| - 1], NTP_PORT)
  }

  /** The result of `ntp_request`: the server's seconds, or the error. */
  function NtpResult(dns: Option<seq<Ipv4>>, reply: NtpReply): (r: Result<nat, SntpcError>)
    ensures dns.None? ==> r == Err(NoAddr)
    ensures dns == Some([]) ==> r == Err(DnsEmptyResponse)
    ensures dns.Some? && dns.value != [] && !reply.Reply? ==> r == Err(BadNtpResponse)
    ensures r.Ok? <==> dns.Some? && dns.value != [] && reply.Reply?
    ensures r.Ok? ==> r.value == reply.seconds
  {
    match dns
    case None => Err(NoAddr)
    case Some(answer) =>
      if answer == [] then Err(DnsEmptyResponse)
      else
        match reply
        case Reply(secs) => Ok(secs)
        case _ => Err(BadNtpResponse)
  }

  /** `ntp_request`: on success the clock is set to the server's time. */
  method NtpRequest(clock: Clock, dns: Option<seq<Ipv4>>, reply: NtpReply, elapsed: nat) returns (r: Result<nat, SntpcError>)
    modifies clock
    ensures r == NtpResult(dns, reply)
    ensures r.Ok? ==> clock.Now(elapsed) == r.value * MILLIS_PER_SECOND
    ensures r.Err? ==> clock.sysStart == old(clock.sysStart)
  {
    if dns.None? {
      return Err(NoAddr);
    }
    var answer := dns.value;
    if answer == [] {
      return Err(DnsEmptyResponse);
    }
    match reply {
      case Reply(secs) =>
        clock.SetTime(secs * MILLIS_PER_SECOND, elapsed);
        return Ok(secs);
      case _ =>
        return Err(BadNtpResponse);
    }
  }

  // ---------------------------------------------------------------------------
  // ntp_worker

  /** `unix_timestamp() as u64`: the cast wraps a negative timestamp. */
  function AsU64(x: int): (r: nat)
    ensures r < U64_MODULUS
    ensures 0 <= x < U64_MODULUS ==> r == x
  {
    x % U64_MODULUS
  }

  /** The u64 subtraction, wrapping as in a build without overflow checks. */
  function WrappingSub(a: nat, b: nat): (r: nat)
    requires a < U64_MODULUS && b < U64_MODULUS
    ensures b <= a ==> r == a - b
    ensures a < b ==> r == a - b + U64_MODULUS
  {
    (a - b) % U64_MODULUS
  }

  /** A resync is due when none has succeeded yet or the last is over an hour old. */
  function ResyncDue(nowSecs: int, syncSecond: nat): (due: bool)
    requires syncSecond < U64_MODULUS
    ensures syncSecond == 0 ==> due
    ensures 0 <= nowSecs < U64_MODULUS && syncSecond <= nowSecs ==>
      (due <==> syncSecond == 0 || nowSecs - syncSecond > RESYNC_SECS)
  {
    WrappingSub(AsU64(nowSecs), syncSecond) > RESYNC_SECS || syncSecond == 0
  }

  /** `sync_time_success` */
  predicate SyncTimeSuccess(syncSecond: nat) {
    syncSecond > 0
  }

  /**
   * The error counter after a failed request and the seconds to wait: past
   * ten errors the counter restarts and the wait is 10 s, otherwise 1 s;
   * then the counter counts this failure.
   */
  function FailureBackoff(errTimes: nat): (r: (nat, nat))
    ensures r.1 == 10 <==> errTimes > 10
    ensures r.1 == 1 <==> errTimes <= 10
    ensures r.0 == if errTimes > 10 then 1 else errTimes + 1
  {
    var (counter, sleep) := if errTimes > 10 then (0, 10) else (errTimes, 1);
    (counter + 1, sleep)
  }

  /** The state `ntp_worker` carries between iterations. */
  datatype NtpState = NtpState(errTimes: nat, syncSecond: nat)

  /** What `use_wifi` and `ntp_request` return during one iteration: no access, a failed request, or success. */
  datatype SyncAttempt = NoWifi | RequestFailed | Synced

  /** What one iteration does: its new state, its wait and whether it released Wi-Fi. */
  datatype Iteration = Iteration(state: NtpState, sleepSecs: nat, finishedWifi: bool)

  /**
   * One iteration of the loop. `nowSecs` is the clock's second before the
   * attempt, `syncedAt` its second read after a successful request.
   */
  function NtpIteration(s: NtpState, nowSecs: int, attempt: SyncAttempt, syncedAt: int): (r: Iteration)
    requires s.syncSecond < U64_MODULUS
    ensures r.state.syncSecond < U64_MODULUS
    ensures r.sleepSecs in {1, 10, RESYNC_SECS}
    ensures !ResyncDue(nowSecs, s.syncSecond) ==> r == Iteration(s, RESYNC_SECS, false)
    ensures ResyncDue(nowSecs, s.syncSecond) ==> (r.finishedWifi <==> attempt != NoWifi)
    ensures ResyncDue(nowSecs, s.syncSecond) && attempt == NoWifi ==> r == Iteration(s, 1, false)
    ensures ResyncDue(nowSecs, s.syncSecond) && attempt == Synced ==>
      r == Iteration(NtpState(0, AsU64(syncedAt)), RESYNC_SECS, true)
    ensures ResyncDue(nowSecs, s.syncSecond) && attempt == RequestFailed ==>
      r.state == NtpState(FailureBackoff(s.errTimes).0, s.syncSecond) && r.sleepSecs == FailureBackoff(s.errTimes).1
    ensures r.state.syncSecond != s.syncSecond ==> attempt == Synced
  {
    if !ResyncDue(nowSecs, s.syncSecond) then Iteration(s, RESYNC_SECS, false)
    else
      match attempt
      case NoWifi => Iteration(s, 1, false)
      case Synced => Iteration(NtpState(0, AsU64(syncedAt)), RESYNC_SECS, true)
      case RequestFailed =>
        var (errTimes, sleep) := FailureBackoff(s.errTimes);
        Iteration(NtpState(errTimes, s.syncSecond), sleep, true)
  }

  /** The counter never exceeds eleven from a fresh start. */
  lemma ErrTimesBounded(s: NtpState, nowSecs: int, attempt: SyncAttempt, syncedAt: int)
    requires s.syncSecond < U64_MODULUS && s.errTimes <= 11
    ensures NtpIteration(s, nowSecs, attempt, syncedAt).state.errTimes <= 11
  {
  }

  /** A successful sync marks the clock as synchronised from a positive second on. */
  lemma SyncedMarksSuccess(s: NtpState, nowSecs: int, syncedAt: int)
    requires s.syncSecond < U64_MODULUS && ResyncDue(nowSecs, s.syncSecond)
    requires 0 < syncedAt < U64_MODULUS
    ensures SyncTimeSuccess(NtpIteration(s, nowSecs, Synced, syncedAt).state.syncSecond)
    ensures !ResyncDue(syncedAt, NtpIteration(s, nowSecs, Synced, syncedAt).state.syncSecond)
  {
  }

  /** The waits after `n` consecutive failed requests, starting from error count `e`. */
  function FailureWaits(e: nat, n: nat): (w: seq<nat>)
    ensures |w| == n
    decreases n
  {
    if n == 0 then [] else [FailureBackoff(e).1] + FailureWaits(FailureBackoff(e).0, n - 1)
  }

  /**
   * The backoff rhythm: from error count `e`, failure number `k` (from 0)
   * waits 10 s exactly when e + k is 11, 22, 33, ..., and 1 s otherwise.
   */
  lemma {:induction false} BackoffPattern(e: nat, n: nat, k: nat)
    requires e <= 11 && k < n
    ensures FailureWaits(e, n)[k] == if e + k >= 11 && (e + k) % 11 == 0 then 10 else 1
    decreases n
  {
    if k > 0 {
      var e' := FailureBackoff(e).0;
      assert FailureWaits(e, n)[k] == FailureWaits(e', n - 1)[k - 1];
      BackoffPattern(e', n - 1, k - 1);
      if e == 11 {
        assert e' + k - 1 == k;
        ElevenPeriodic(k);
      } else {
        assert e' + k - 1 == e + k;
      }
    }
  }

  lemma ElevenPeriodic(k: nat)
    ensures (11 + k) % 11 == k % 11
  {
    var q := k / 11;
    assert 11 + k == 11 * (q + 1) + k % 11;
  }

  /** NTP clock synchronisation with its RTC-retained statics. */
  class NtpWorker {
    var errTimes: nat
    /** `CLOCK_SYNC_TIME_SECOND` */
    var syncSecond: nat
    /** `WHEN_SLEEP_TIME_TIMESTAMP` */
    var sleepTimestamp: nat

    ghost predicate Valid()
      reads this
    {
      syncSecond < U64_MODULUS && sleepTimestamp < U64_MODULUS
    }

    function State(): NtpState
      reads this
    {
      NtpState(errTimes, syncSecond)
    }

    /**
     * The start of `ntp_worker`: after a deep sleep the clock is set to the
     * saved second plus the whole seconds slept. `ok` is false where the
     * conversion to a date would panic, past the year 9999.
     */
    method RestoreClock(clock: Clock, sleepMs: nat, elapsed: nat) returns (ok: bool)
      modifies clock
      ensures sleepTimestamp == 0 ==> ok && clock.sysStart == old(clock.sysStart)
      ensures sleepTimestamp > 0 ==> (ok <==> sleepTimestamp + sleepMs / 1000 <= MAX_UNIX_SECS)
      ensures sleepTimestamp > 0 && ok ==>
        clock.Now(elapsed) == (sleepTimestamp + sleepMs / 1000) * MILLIS_PER_SECOND
      ensures !ok ==> clock.sysStart == old(clock.sysStart)
    {
      ok := true;
      if sleepTimestamp > 0 {
        var currentSecond := sleepTimestamp + sleepMs / 1000;
        if currentSecond > MAX_UNIX_SECS {
          return false;
        }
        clock.SetTime(currentSecond * MILLIS_PER_SECOND, elapsed);
      }
    }

    /** `save_time_to_rtc` */
    method SaveTimeToRtc(clock: Clock, elapsed: nat)
      modifies this
      ensures sleepTimestamp == AsU64(clock.Now(elapsed) / 1000)
      ensures Valid() <==> syncSecond < U64_MODULUS
      ensures errTimes == old(errTimes) && syncSecond == old(syncSecond)
    {
      sleepTimestamp := AsU64(clock.Now(elapsed) / 1000);
    }

    /** One pass of the loop, with `attempt` standing for the network outcome. */
    method Iterate(nowSecs: int, attempt: SyncAttempt, syncedAt: int) returns (sleepSecs: nat, finished: bool)
      requires Valid()
      modifies this
      ensures Valid() && sleepTimestamp == old(sleepTimestamp)
      ensures Iteration(State(), sleepSecs, finished) == NtpIteration(old(State()), nowSecs, attempt, syncedAt)
    {
      sleepSecs := 3600;
      finished := false;
      if WrappingSub(AsU64(nowSecs), syncSecond) > 3600 || syncSecond == 0 {
        match attempt {
          case NoWifi =>
            sleepSecs := 1;
          case RequestFailed =>
            finished := true;
            if errTimes > 10 {
              errTimes := 0;
              sleepSecs := 10;
            } else {
              sleepSecs := 1;
            }
            errTimes := errTimes + 1;
          case Synced =>
            finished := true;
            syncSecond := AsU64(syncedAt);
            errTimes := 0;
            sleepSecs := 3600;
        }
      }
    }
  }

  /** One iteration's inputs: the clock's second, the network outcome and the second after syncing. */
  datatype Round = Round(nowSecs: int, attempt: SyncAttempt, syncedAt: int)

  /** The waits of successive iterations. */
  function NtpRun(s: NtpState, rounds: seq<Round>): (r: (NtpState, seq<nat>))
    requires s.syncSecond < U64_MODULUS
    ensures r.0.syncSecond < U64_MODULUS && |r.1| == |rounds|
    ensures s.errTimes <= 11 ==> r.0.errTimes <= 11
    ensures forall i :: 0 <= i < |r.1| ==> r.1[i] in {1, 10, RESYNC_SECS}
    decreases |rounds|
  {
    if rounds == [] then (s, [])
    else
      var it := NtpIteration(s, rounds[0].nowSecs, rounds[0].attempt, rounds[0].syncedAt);
      var rest := NtpRun(it.state, rounds[1..]);
      (rest.0, [it.sleepSecs] + rest.1)
  }

  /** Runs the worker's loop over `rounds`, one `Iterate` per round, collecting the waits. */
  method RunWorker(worker: NtpWorker, rounds: seq<Round>) returns (waits: seq<nat>)
    requires worker.Valid()
    modifies worker
    ensures worker.Valid()
    ensures worker.State() == NtpRun(old(worker.State()), rounds).0
    ensures waits == NtpRun(old(worker.State()), rounds).1
  {
    waits := [];
    var k := 0;
    assert rounds[k..] == rounds;
    while k < |rounds|
      invariant 0 <= k <= |rounds| && worker.Valid()
      invariant NtpRun(old(worker.State()), rounds).0 == NtpRun(worker.State(), rounds[k..]).0
      invariant NtpRun(old(worker.State()), rounds).1 == waits + NtpRun(worker.State(), rounds[k..]).1
    {
      ghost var before := worker.State();
      assert rounds[k..][1..] == rounds[k + 1..];
      var sleepSecs, _ := worker.Iterate(rounds[k].nowSecs, rounds[k].attempt, rounds[k].syncedAt);
      assert NtpRun(before, rounds[k..]) == (NtpRun(worker.State(), rounds[k + 1..]).0, [sleepSecs] + NtpRun(worker.State(), rounds[k + 1..]).1);
      waits := waits + [sleepSecs];
      k := k + 1;
    }
    assert rounds[k..] == [];
    assert waits + [] == waits;
  }
}
