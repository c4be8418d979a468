/**
 * The weather service: `request` borrows the Wi-Fi link, fetches the daily
 * forecast over HTTP, releases the link and stores the parsed forecast;
 * `weather_worker` repeats it hourly after success and every five seconds
 * after a failure, and raises the sync flag on the first success.
 */
module Weather {
  import opened Wrappers
  import opened Seniverse

  const SUCCESS_WAIT_SECS: nat := 3600
  const FAILURE_WAIT_SECS: nat := 5

  /** The broker calls made around a request. */
  datatype WifiCall = UseWifi | FinishWifi

  /** How the HTTP exchange ends: a response whose body the JSON parser read (`None` when it could not), or an error. */
  datatype HttpResult = Response(parsed: Option<Json>) | RequestFailed

  /** What one `request` does: its result (`Panics` where `form_json` does), the broker calls and the stored forecast. */
  datatype RequestRun = RequestRun(result: Outcome<bool>, calls: seq<WifiCall>, daily: Option<DailyResult>)

  /** `Weather::request` given the broker's answer and the HTTP result. */
  function Request(daily: Option<DailyResult>, wifiOk: bool, http: HttpResult): (r: RequestRun)
    ensures !wifiOk ==> r == RequestRun(Returned(false), [UseWifi], daily)
    ensures wifiOk ==> r.calls == [UseWifi, FinishWifi]
    ensures wifiOk && http.RequestFailed? ==> r == RequestRun(Returned(false), [UseWifi, FinishWifi], daily)
    ensures r.result == Returned(true) <==> wifiOk && http.Response? && FormJson(http.parsed).Returned?
    ensures r.daily != daily ==> http.Response? && FormJson(http.parsed).Returned? && FormJson(http.parsed).value.Some?
  {
    if !wifiOk then RequestRun(Returned(false), [UseWifi], daily)
    else
      match http
      case RequestFailed => RequestRun(Returned(false), [UseWifi, FinishWifi], daily)
      case Response(parsed) =>
        match FormJson(parsed)
        case Panics => RequestRun(Panics, [UseWifi, FinishWifi], daily)
        case Returned(None) => RequestRun(Returned(true), [UseWifi, FinishWifi], daily)
        case Returned(Some(response)) =>
          var results := response.results;
          RequestRun(Returned(true), [UseWifi, FinishWifi], Some(results[|results| - 1]))
  }

  /** The link is released exactly when it was acquired, and after the acquisition. */
  lemma RequestReleases(daily: Option<DailyResult>, wifiOk: bool, http: HttpResult)
    ensures var calls := Request(daily, wifiOk, http).calls;
      calls[0] == UseWifi && (FinishWifi in calls <==> wifiOk) && |calls| <= 2
  {
  }

  /** A forecast that parses replaces the stored one by the single result of `form_json`. */
  lemma RequestStoresForecast(daily: Option<DailyResult>, parsed: Option<Json>, response: DailyResponse)
    requires FormJson(parsed) == Returned(Some(response))
    ensures Request(daily, true, Response(parsed)).daily == Some(response.results[0])
    ensures Request(daily, true, Response(parsed)).result == Returned(true)
  {
  }

  /** A body that is not JSON leaves the stored forecast and still reports success. */
  lemma UnparsableBodyKeepsForecast(daily: Option<DailyResult>)
    ensures Request(daily, true, Response(None)) == RequestRun(Returned(true), [UseWifi, FinishWifi], daily)
  {
  }

  /** The weather store and `WEATHER_SYNC_SUCCESS`. */
  class WeatherService {
    var dailyResult: Option<DailyResult>
    var syncSuccess: bool

    constructor ()
      ensures dailyResult.None? && !syncSuccess
    {
      dailyResult := None;
      syncSuccess := false;
    }

    /** `request`: the result and the broker calls made. */
    method RequestCall(wifiOk: bool, http: HttpResult) returns (result: Outcome<bool>, calls: seq<WifiCall>)
      modifies this
      ensures RequestRun(result, calls, dailyResult) == Request(old(dailyResult), wifiOk, http)
      ensures syncSuccess == old(syncSuccess)
    {
      calls := [UseWifi];
      if !wifiOk {
        return Returned(false), calls;
      }
      match http {
        case RequestFailed =>
          calls := calls + [FinishWifi];
          return Returned(false), calls;
        case Response(parsed) =>
          calls := calls + [FinishWifi];
          var dailyResponse := FormJsonLoop(parsed);
          if dailyResponse.Panics? {
            return Panics, calls;
          }
          if dailyResponse.value.Some? {
            var results := dailyResponse.value.value.results;
            dailyResult := Some(results[|results| - 1]);
          }
          return Returned(true), calls;
      }
    }

    /** One pass of `weather_worker`: the request, then the flag and the wait. */
    method WorkerRound(wifiOk: bool, http: HttpResult) returns (result: Outcome<nat>)
      modifies this
      ensures var run := Request(old(dailyResult), wifiOk, http);
        dailyResult == run.daily &&
        (run.result.Panics? ==> result.Panics? && syncSuccess == old(syncSuccess)) &&
        (run.result == Returned(true) ==> result == Returned(SUCCESS_WAIT_SECS) && syncSuccess) &&
        (run.result == Returned(false) ==> result == Returned(FAILURE_WAIT_SECS) && syncSuccess == old(syncSuccess))
    {
      var r, _ := RequestCall(wifiOk, http);
      if r.Panics? {
        return Panics;
      }
      if r.value {
        syncSuccess := true;
        return Returned(SUCCESS_WAIT_SECS);
      }
      return Returned(FAILURE_WAIT_SECS);
    }
  }

  /** The flag and the waits after a sequence of rounds that do not panic. */
  function WorkerRun(flag: bool, daily: Option<DailyResult>, rounds: seq<(bool, HttpResult)>): (r: (bool, seq<nat>))
    ensures |r.1| <= |rounds|
    ensures flag ==> r.0
    ensures forall i :: 0 <= i < |r.1| ==> r.1[i] == SUCCESS_WAIT_SECS || r.1[i] == FAILURE_WAIT_SECS
    decreases |rounds|
  {
    if rounds == [] then (flag, [])
    else
      var run := Request(daily, rounds[0].0, rounds[0].1);
      match run.result
      case Panics => (flag, [])
      case Returned(ok) =>
        var rest := WorkerRun(flag || ok, run.daily, rounds[1..]);
        (rest.0, [if ok then SUCCESS_WAIT_SECS else FAILURE_WAIT_SECS] + rest.1)
  }

  /** The flag is raised iff some round succeeded, and is never lowered. */
  lemma {:induction false} FlagIffSuccess(daily: Option<DailyResult>, rounds: seq<(bool, HttpResult)>)
    ensures WorkerRun(false, daily, rounds).0 <==> SUCCESS_WAIT_SECS in WorkerRun(false, daily, rounds).1
    decreases |rounds|
  {
    if rounds != [] {
      var run := Request(daily, rounds[0].0, rounds[0].1);
      if run.result == Returned(false) {
        FlagIffSuccess(run.daily, rounds[1..]);
      }
    }
  }
}
