/**
 * `form_json`: the mapping from the weather service's parsed JSON reply to
 * the bounded daily-forecast record. The JSON text itself is parsed by a
 * library; its result is the input here. Every `unwrap` on a missing
 * `"results"` array, a non-object, a non-string value or a string too long
 * for its fixed-capacity field panics; those paths end in `Panics`.
 */
module Seniverse {
  import opened Wrappers
  import opened Heapless
  import opened RustStr

  datatype Json =
    | JNull
    | JBool(b: bool)
    | JNumber(n: int)
    | JString(s: string)
    | JArray(items: seq<Json>)
    | JObject(entries: seq<(string, Json)>)

  /** The end of a computation that may reach a failing `unwrap`. */
  datatype Outcome<+T> = Returned(value: T) | Panics

  /** The capacity of the string a key is collected into. */
  const KEY_CAPACITY: nat := 40
  const LAST_UPDATE_CAPACITY: nat := 40
  /** At most five daily forecasts are kept. */
  const DAILY_CAPACITY: nat := 5

  /** The fields of `Location`, each with its capacity in bytes. */
  const LOCATION_FIELDS: map<string, nat> := map[
    "id" := 20, "name" := 20, "country" := 20, "path" := 50, "timezone" := 30, "timezone_offset" := 20]

  /** The fields of `Daily`, all of capacity 20 bytes. */
  const DAILY_FIELDS: map<string, nat> := map[
    "date" := 20, "text_day" := 20, "code_day" := 20, "text_night" := 20, "code_night" := 20,
    "high" := 20, "low" := 20, "rainfall" := 20, "precip" := 20, "wind_direction" := 20,
    "wind_direction_degree" := 20, "wind_speed" := 20, "wind_scale" := 20, "humidity" := 20]

  /** A record of string fields, keyed by field name. */
  type Record = map<string, string>

  /** `Default::default()`: every field empty. */
  function Blank(fields: map<string, nat>): (r: Record)
    ensures r.Keys == fields.Keys
    ensures forall k :: k in r ==> r[k] == ""
  {
    map k | k in fields :: ""
  }

  datatype DailyResult = DailyResult(lastUpdate: string, daily: seq<Record>, location: Record)
  datatype DailyResponse = DailyResponse(results: seq<DailyResult>)

  /** The first entry with key `key`. */
  function Lookup(entries: seq<(string, Json)>, key: string): (r: Option<Json>)
    ensures r.None? <==> forall i :: 0 <= i < |entries| ==> entries[i].0 != key
  {
    if entries == [] then None
    else if entries[0].0 == key then Some(entries[0].1)
    else Lookup(entries[1..], key)
  }

  /** `get(key)`: an object's entry; other values have none. */
  function Get(v: Json, key: string): Option<Json> {
    if v.JObject? then Lookup(v.entries, key) else None
  }

  /** `chars().collect()` into a string of `capacity` bytes, which panics past its capacity. */
  function Collect(s: string, capacity: nat): (r: Outcome<string>)
    ensures r.Returned? <==> Utf8Len(s) <= capacity
    ensures r.Returned? ==> r.value == s
  {
    if Utf8Len(s) <= capacity then Returned(s) else Panics
  }

  /** `set_field!` for one entry: a listed key takes the string value, any other key is ignored. */
  function SetField(rec: Record, fields: map<string, nat>, key: string, value: Json): (r: Outcome<Record>)
    ensures Utf8Len(key) <= KEY_CAPACITY && key !in fields ==> r == Returned(rec)
    ensures r.Returned? && key in fields ==> value.JString? && r.value == rec[key := value.s]
    ensures r.Returned? ==> r.value.Keys == rec.Keys + (if key in fields then {key} else {})
  {
    if Utf8Len(key) > KEY_CAPACITY then Panics
    else if key !in fields then Returned(rec)
    else if !value.JString? then Panics
    else
      match Collect(value.s, fields[key])
      case Panics => Panics
      case Returned(s) => Returned(rec[key := s])
  }

  /** The record after the entries of one object, set in order. */
  function FillRecord(fields: map<string, nat>, entries: seq<(string, Json)>): (r: Outcome<Record>)
    ensures r.Returned? ==> r.value.Keys == fields.Keys
    decreases |entries|
  {
    if entries == [] then Returned(Blank(fields))
    else
      match FillRecord(fields, entries[..|entries| - 1])
      case Panics => Panics
      case Returned(rec) =>
        var (key, value) := entries[|entries| - 1];
        SetField(rec, fields, key, value)
  }

  /** The value of the last entry with key `key`, if any. */
  function LastValue(entries: seq<(string, Json)>, key: string): (r: Option<Json>)
    ensures r.None? <==> forall i :: 0 <= i < |entries| ==> entries[i].0 != key
  {
    if entries == [] then None
    else if entries[|entries| - 1].0 == key then Some(entries[|entries| - 1].1)
    else LastValue(entries[..|entries| - 1], key)
  }

  /**
   * A filled record holds, for each field, the string of the last entry with
   * that exact key, or stays empty when no entry names it.
   */
  lemma {:induction false} FillRecordLastWins(fields: map<string, nat>, entries: seq<(string, Json)>, k: string)
    requires k in fields && FillRecord(fields, entries).Returned?
    ensures LastValue(entries, k).Some? ==> LastValue(entries, k).value.JString?
    ensures var v := LastValue(entries, k);
      FillRecord(fields, entries).value[k] == if v.None? then "" else v.value.s
    decreases |entries|
  {
    if entries != [] {
      FillRecordLastWins(fields, entries[..|entries| - 1], k);
    }
  }

  /** The loop over an object's entries. */
  method FillRecordLoop(fields: map<string, nat>, entries: seq<(string, Json)>) returns (r: Outcome<Record>)
    ensures r == FillRecord(fields, entries)
  {
    var temp := Blank(fields);
    var i := 0;
    while i < |entries|
      invariant 0 <= i <= |entries|
      invariant FillRecord(fields, entries[..i]) == Returned(temp)
    {
      assert entries[..i + 1][..i] == entries[..i];
      var (key, value) := entries[i];
      var next := SetField(temp, fields, key, value);
      if next.Panics? {
        FillPanicsOn(fields, entries, i + 1);
        return Panics;
      }
      temp := next.value;
      i := i + 1;
    }
    assert entries[..i] == entries;
    return Returned(temp);
  }

  /** Once a prefix of the entries panics, so does the whole object. */
  lemma {:induction false} FillPanicsOn(fields: map<string, nat>, entries: seq<(string, Json)>, n: nat)
    requires n <= |entries| && FillRecord(fields, entries[..n]).Panics?
    ensures FillRecord(fields, entries).Panics?
    decreases |entries| - n
  {
    if n < |entries| {
      assert entries[..n + 1][..n] == entries[..n];
      FillPanicsOn(fields, entries, n + 1);
    } else {
      assert entries[..n] == entries;
    }
  }

  /** The records of a `"daily"` array, each item an object, with no bound. */
  function DailyRecords(items: seq<Json>): (r: Outcome<seq<Record>>)
    ensures r.Returned? ==> |r.value| == |items|
    decreases |items|
  {
    if items == [] then Returned([])
    else
      match DailyRecords(items[..|items| - 1])
      case Panics => Panics
      case Returned(recs) =>
        var item := items[|items| - 1];
        if !item.JObject? then Panics
        else
          match FillRecord(DAILY_FIELDS, item.entries)
          case Panics => Panics
          case Returned(rec) => Returned(recs + [rec])
  }

  /** At most `capacity` of the concatenation, as successive bounded pushes leave it. */
  function Take(xs: seq<Record>, capacity: nat): (r: seq<Record>)
    ensures |r| <= capacity && r <= xs
    ensures |xs| <= capacity ==> r == xs
  {
    if |xs| <= capacity then xs else xs[..capacity]
  }

  lemma TakePush(xs: seq<Record>, x: Record, capacity: nat)
    ensures Take(xs + [x], capacity) == PushBounded(Take(xs, capacity), x, capacity)
  {
    if |xs| > capacity {
      assert (xs + [x])[..capacity] == xs[..capacity];
    }
  }

  /** The state of the results loop: the last location, the daily records and the last update. */
  datatype Collected = Collected(location: Option<Record>, daily: seq<Record>, lastUpdate: string)

  const NOTHING_COLLECTED := Collected(None, [], "")

  /** The daily records one result contributes, when its array has any. */
  function ResultDaily(result: Json): Outcome<seq<Record>> {
    match Get(result, "daily")
    case None => Returned([])
    case Some(a) => if a.JArray? then DailyRecords(a.items) else Panics
  }

  /** One result: location, then daily, then last_update, in the order the loop body reads them. */
  function ResultStep(st: Collected, result: Json): (r: Outcome<Collected>)
    ensures r.Returned? && Get(result, "location").None? ==> r.value.location == st.location
    ensures r.Returned? && Get(result, "location").Some? ==>
      r.value.location.Some? && Get(result, "location").value.JObject? &&
      FillRecord(LOCATION_FIELDS, Get(result, "location").value.entries) == Returned(r.value.location.value)
    ensures r.Returned? ==>
      ResultDaily(result).Returned? && r.value.daily == Take(st.daily + ResultDaily(result).value, DAILY_CAPACITY)
  {
    var withLocation: Outcome<Option<Record>> :=
      match Get(result, "location")
      case None => Returned(st.location)
      case Some(obj) =>
        if !obj.JObject? then Panics
        else match FillRecord(LOCATION_FIELDS, obj.entries)
          case Panics => Panics
          case Returned(rec) => Returned(Some(rec));
    if withLocation.Panics? then Panics
    else
      match ResultDaily(result)
      case Panics => Panics
      case Returned(recs) =>
        var daily := Take(st.daily + recs, DAILY_CAPACITY);
        match Get(result, "last_update")
        case None => Returned(Collected(withLocation.value, daily, st.lastUpdate))
        case Some(v) =>
          if !v.JString? then Panics
          else match Collect(v.s, LAST_UPDATE_CAPACITY)
            case Panics => Panics
            case Returned(s) => Returned(Collected(withLocation.value, daily, s))
  }

  /** The results loop over the `"results"` array. */
  function CollectResults(results: seq<Json>): Outcome<Collected>
    decreases |results|
  {
    if results == [] then Returned(NOTHING_COLLECTED)
    else
      match CollectResults(results[..|results| - 1])
      case Panics => Panics
      case Returned(st) => ResultStep(st, results[|results| - 1])
  }

  /** `form_json`; the input is the JSON parser's result, `None` for a parse error. */
  function FormJson(parsed: Option<Json>): (r: Outcome<Option<DailyResponse>>)
    ensures parsed.None? ==> r == Returned(None)
    ensures r.Returned? && r.value.Some? ==> |r.value.value.results| == 1
  {
    match parsed
    case None => Returned(None)
    case Some(json) =>
      match Get(json, "results")
      case None => Panics
      case Some(a) =>
        if !a.JArray? then Panics
        else
          match CollectResults(a.items)
          case Panics => Panics
          case Returned(st) =>
            if st.location.None? then Returned(None)
            else Returned(Some(DailyResponse([DailyResult(st.lastUpdate, st.daily, st.location.value)])))
  }

  /** Some result carries a `"location"`. */
  predicate HasLocation(results: seq<Json>) {
    exists i :: 0 <= i < |results| && Get(results[i], "location").Some?
  }

  /** A location is collected iff some result has one, and it is the one of the last such result. */
  lemma {:induction false} LastLocationWins(results: seq<Json>)
    requires CollectResults(results).Returned?
    ensures CollectResults(results).value.location.Some? <==> HasLocation(results)
    ensures forall i ::
      (0 <= i < |results| && Get(results[i], "location").Some? &&
       (forall j :: i < j < |results| ==> Get(results[j], "location").None?)) ==>
      Get(results[i], "location").value.JObject? &&
      FillRecord(LOCATION_FIELDS, Get(results[i], "location").value.entries) == Returned(CollectResults(results).value.location.value)
    decreases |results|
  {
    if results != [] {
      var init := results[..|results| - 1];
      var last := results[|results| - 1];
      LastLocationWins(init);
      if Get(last, "location").None? {
        forall i | 0 <= i < |init| && Get(init[i], "location").Some? ensures 0 <= i < |results| && Get(results[i], "location").Some? {
          assert init[i] == results[i];
        }
        forall i | 0 <= i < |results| && Get(results[i], "location").Some? ensures 0 <= i < |init| && Get(init[i], "location").Some? {
          assert init[i] == results[i];
        }
      }
    }
  }

  /** `form_json` yields no forecast iff no result carries a `"location"`. */
  lemma FormJsonNoneIff(json: Json, results: seq<Json>)
    requires Get(json, "results") == Some(JArray(results)) && CollectResults(results).Returned?
    ensures FormJson(Some(json)).Returned?
    ensures FormJson(Some(json)).value.None? <==> !HasLocation(results)
  {
    LastLocationWins(results);
  }

  /** The last `"last_update"` string wins; it stays empty when no result has one. */
  lemma {:induction false} LastUpdateWins(results: seq<Json>)
    requires CollectResults(results).Returned?
    ensures (forall i :: 0 <= i < |results| ==> Get(results[i], "last_update").None?) ==>
      CollectResults(results).value.lastUpdate == ""
    ensures forall i ::
      (0 <= i < |results| && Get(results[i], "last_update").Some? &&
       (forall j :: i < j < |results| ==> Get(results[j], "last_update").None?)) ==>
      Get(results[i], "last_update").value == JString(CollectResults(results).value.lastUpdate)
    decreases |results|
  {
    if results != [] {
      var init := results[..|results| - 1];
      LastUpdateWins(init);
      forall i | 0 <= i < |init| ensures init[i] == results[i] {
      }
    }
  }

  /** The daily records of all results, in input order. */
  function AllDaily(results: seq<Json>): Outcome<seq<Record>>
    decreases |results|
  {
    if results == [] then Returned([])
    else
      match AllDaily(results[..|results| - 1])
      case Panics => Panics
      case Returned(recs) =>
        match ResultDaily(results[|results| - 1])
        case Panics => Panics
        case Returned(more) => Returned(recs + more)
  }

  lemma {:induction false} TakeAppend(xs: seq<Record>, ys: seq<Record>, capacity: nat)
    ensures Take(Take(xs, capacity) + ys, capacity) == Take(xs + ys, capacity)
  {
    if |xs| > capacity {
      assert (xs + ys)[..capacity] == xs[..capacity];
      assert (xs[..capacity] + ys)[..capacity] == xs[..capacity];
    }
  }

  /** The daily records are those of all results in input order, the first five kept. */
  lemma {:induction false} DailyInOrder(results: seq<Json>)
    requires CollectResults(results).Returned?
    ensures AllDaily(results).Returned?
    ensures CollectResults(results).value.daily == Take(AllDaily(results).value, DAILY_CAPACITY)
    decreases |results|
  {
    if results != [] {
      var init := results[..|results| - 1];
      DailyInOrder(init);
      TakeAppend(AllDaily(init).value, ResultDaily(results[|results| - 1]).value, DAILY_CAPACITY);
    }
  }

  // ---------------------------------------------------------------------------
  // The loops of form_json

  /** The loop over a `"daily"` array: each item filled field by field and pushed. */
  method DailyLoop(daily: seq<Record>, items: seq<Json>) returns (r: Outcome<seq<Record>>)
    requires |daily| <= DAILY_CAPACITY
    ensures DailyRecords(items).Panics? ==> r.Panics?
    ensures DailyRecords(items).Returned? ==> r == Returned(Take(daily + DailyRecords(items).value, DAILY_CAPACITY))
  {
    var acc := daily;
    var i := 0;
    while i < |items|
      invariant 0 <= i <= |items|
      invariant DailyRecords(items[..i]).Returned?
      invariant acc == Take(daily + DailyRecords(items[..i]).value, DAILY_CAPACITY)
    {
      assert items[..i + 1][..i] == items[..i];
      var item := items[i];
      if !item.JObject? {
        DailyPanicsOn(items, i + 1);
        return Panics;
      }
      var rec := FillRecordLoop(DAILY_FIELDS, item.entries);
      if rec.Panics? {
        DailyPanicsOn(items, i + 1);
        return Panics;
      }
      TakePush(daily + DailyRecords(items[..i]).value, rec.value, DAILY_CAPACITY);
      assert daily + DailyRecords(items[..i + 1]).value == (daily + DailyRecords(items[..i]).value) + [rec.value];
      acc := PushBounded(acc, rec.value, DAILY_CAPACITY);
      i := i + 1;
    }
    assert items[..i] == items;
    return Returned(acc);
  }

  lemma {:induction false} DailyPanicsOn(items: seq<Json>, n: nat)
    requires n <= |items| && DailyRecords(items[..n]).Panics?
    ensures DailyRecords(items).Panics?
    decreases |items| - n
  {
    if n < |items| {
      assert items[..n + 1][..n] == items[..n];
      DailyPanicsOn(items, n + 1);
    } else {
      assert items[..n] == items;
    }
  }

  /** The body of the results loop, with `location`, `daily` and `last_update` as its locals. */
  method ResultBody(st: Collected, result: Json) returns (r: Outcome<Collected>)
    requires |st.daily| <= DAILY_CAPACITY
    ensures r == ResultStep(st, result)
  {
    var location := st.location;
    var locationObj := Get(result, "location");
    if locationObj.Some? {
      if !locationObj.value.JObject? {
        return Panics;
      }
      var temp := FillRecordLoop(LOCATION_FIELDS, locationObj.value.entries);
      if temp.Panics? {
        return Panics;
      }
      location := Some(temp.value);
    }
    var daily := st.daily;
    var dailyArray := Get(result, "daily");
    if dailyArray.Some? {
      if !dailyArray.value.JArray? {
        return Panics;
      }
      var pushed := DailyLoop(daily, dailyArray.value.items);
      if pushed.Panics? {
        return Panics;
      }
      daily := pushed.value;
    } else {
      assert st.daily + [] == st.daily;
    }
    var lastUpdate := st.lastUpdate;
    var lastUpdateTemp := Get(result, "last_update");
    if lastUpdateTemp.Some? {
      if !lastUpdateTemp.value.JString? {
        return Panics;
      }
      var s := Collect(lastUpdateTemp.value.s, LAST_UPDATE_CAPACITY);
      if s.Panics? {
        return Panics;
      }
      lastUpdate := s.value;
    }
    return Returned(Collected(location, daily, lastUpdate));
  }

  /** `form_json` with its loop over the results. */
  method FormJsonLoop(parsed: Option<Json>) returns (r: Outcome<Option<DailyResponse>>)
    ensures r == FormJson(parsed)
  {
    if parsed.None? {
      return Returned(None);
    }
    var tempArray := Get(parsed.value, "results");
    if tempArray.None? || !tempArray.value.JArray? {
      return Panics;
    }
    var results := tempArray.value.items;
    var st := NOTHING_COLLECTED;
    var i := 0;
    while i < |results|
      invariant 0 <= i <= |results| && |st.daily| <= DAILY_CAPACITY
      invariant CollectResults(results[..i]) == Returned(st)
    {
      assert results[..i + 1][..i] == results[..i];
      var next := ResultBody(st, results[i]);
      if next.Panics? {
        CollectPanicsOn(results, i + 1);
        return Panics;
      }
      st := next.value;
      i := i + 1;
    }
    assert results[..i] == results;
    if st.location.None? {
      return Returned(None);
    }
    return Returned(Some(DailyResponse([DailyResult(st.lastUpdate, st.daily, st.location.value)])));
  }

  lemma {:induction false} CollectPanicsOn(results: seq<Json>, n: nat)
    requires n <= |results| && CollectResults(results[..n]).Panics?
    ensures CollectResults(results).Panics?
    decreases |results| - n
  {
    if n < |results| {
      assert results[..n + 1][..n] == results[..n];
      CollectPanicsOn(results, n + 1);
    } else {
      assert results[..n] == results;
    }
  }
}
