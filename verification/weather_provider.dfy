/**
 * Weather::WeatherProvider: the first OpenWeather client, which takes the
 * location and units on every call rather than at construction.
 */
module WeatherProvider {
  import opened Wrappers
  import opened Geo
  import opened Http

  const DEFAULT_UNITS := "imperial"
  const CURRENT_EXCLUDE := "minutely,hourly,daily,alerts"

  /**
   * `build_query`: latitude, longitude, units, exclude and the client's API
   * key, in that order, with nil values removed by `compact`.
   */
  function BuildQuery(latitude: Coord, longitude: Coord, units: Option<string>, exclude: Option<string>, apiKey: Option<string>): (q: Query)
    ensures Find(q, "lat") == Some(Coordinate(latitude))
    ensures Find(q, "lon") == Some(Coordinate(longitude))
    ensures Find(q, "units") == TextParam(units)
    ensures Find(q, "exclude") == TextParam(exclude)
    ensures Find(q, "appid") == TextParam(apiKey)
    ensures KeyList(q) == ["lat"] + ["lon"] + KeyIfPresent("units", units) + KeyIfPresent("exclude", exclude) + KeyIfPresent("appid", apiKey)
  {
    var lat, lon := ("lat", Some(Coordinate(latitude))), ("lon", Some(Coordinate(longitude)));
    var u, exc, appid := ("units", TextParam(units)), ("exclude", TextParam(exclude)), ("appid", TextParam(apiKey));
    CompactFive(lat, lon, u, exc, appid);
    FiveEntries(lat, lon, u, exc, appid);
    assert KeptName(lat) == ["lat"] && KeptName(lon) == ["lon"];
    assert KeptName(u) == KeyIfPresent("units", units) && KeptName(exc) == KeyIfPresent("exclude", exclude);
    assert KeptName(appid) == KeyIfPresent("appid", apiKey);
    Compact([lat, lon, u, exc, appid])
  }

  /**
   * `log_response` as written: on a 2xx reply it only logs; otherwise the
   * log message calls `inspect(response)`, which raises.
   */
  function LogResponseAsWritten(r: Response): (out: Option<Errors.Error>)
    ensures out.None? <==> Success(r)
    ensures out.Some? ==> out.value == INSPECT_ARITY
  {
    if Success(r) then None else Some(INSPECT_ARITY)
  }

  /** One GET of "/onecall" with a logging step that only logs: the parsed body, or `{}` on any exception. */
  function Onecall(client: Client, query: Query): (r: (JsonValue.Value, Client))
    ensures r.1 == client.(sent := client.sent + [Request(ONECALL, query)])
    ensures r.0 == Reply(client.answer(|client.sent|, Request(ONECALL, query)))
  {
    var sent := Send(client, Request(ONECALL, query));
    (Reply(sent.0), sent.1)
  }

  /** One GET of "/onecall" as written: a non-2xx reply makes `log_response` raise, which yields `{}`. */
  function OnecallAsWritten(client: Client, query: Query): (r: (JsonValue.Value, Client))
    ensures r.1 == client.(sent := client.sent + [Request(ONECALL, query)])
    ensures var o := client.answer(|client.sent|, Request(ONECALL, query));
      r.0 == if o.Received? && !Success(o.response) then EMPTY_HASH else Reply(o)
  {
    var sent := Send(client, Request(ONECALL, query));
    if sent.0.Received? && LogResponseAsWritten(sent.0.response).Some? then (EMPTY_HASH, sent.1)
    else (Reply(sent.0), sent.1)
  }

  /** `current_weather`: one request that excludes everything but the current conditions. */
  function CurrentWeather(client: Client, latitude: Coord, longitude: Coord, units: Option<string> := Some(DEFAULT_UNITS)): (r: (JsonValue.Value, Client))
    ensures var q := BuildQuery(latitude, longitude, units, Some(CURRENT_EXCLUDE), client.apiKey);
      r == Onecall(client, q) &&
      Find(q, "exclude") == Some(Text(CURRENT_EXCLUDE)) && Find(q, "units") == TextParam(units)
  {
    Onecall(client, BuildQuery(latitude, longitude, units, Some(CURRENT_EXCLUDE), client.apiKey))
  }

  /** `forecast`: one request with no `exclude` key at all. */
  function Forecast(client: Client, latitude: Coord, longitude: Coord, units: Option<string> := Some(DEFAULT_UNITS)): (r: (JsonValue.Value, Client))
    ensures var q := BuildQuery(latitude, longitude, units, None, client.apiKey);
      r == Onecall(client, q) &&
      Find(q, "exclude") == None && "exclude" !in KeyList(q) && Find(q, "units") == TextParam(units)
  {
    var q := BuildQuery(latitude, longitude, units, None, client.apiKey);
    NoExcludeKey(units, client.apiKey);
    Onecall(client, q)
  }

  /** A nil `exclude` leaves only lat, lon and the present ones of units and appid. */
  lemma NoExcludeKey(units: Option<string>, apiKey: Option<string>)
    ensures "exclude" !in ["lat"] + ["lon"] + KeyIfPresent("units", units) + KeyIfPresent("exclude", None) + KeyIfPresent("appid", apiKey)
  {
    assert "exclude" != "lat" && "exclude" != "lon" && "exclude" != "units" && "exclude" != "appid";
  }

  /** `current_weather` as written: the same request; `{}` when the reply is not 2xx, the corrected result otherwise. */
  function CurrentWeatherAsWritten(client: Client, latitude: Coord, longitude: Coord, units: Option<string> := Some(DEFAULT_UNITS)): (r: (JsonValue.Value, Client))
    ensures var c := CurrentWeather(client, latitude, longitude, units);
      var o := client.answer(|client.sent|, Request(ONECALL, BuildQuery(latitude, longitude, units, Some(CURRENT_EXCLUDE), client.apiKey)));
      r.1 == c.1 && r.0 == if o.Received? && !Success(o.response) then EMPTY_HASH else c.0
  {
    var q := BuildQuery(latitude, longitude, units, Some(CURRENT_EXCLUDE), client.apiKey);
    AsWrittenDiffersOnFailureStatus(client, q);
    OnecallAsWritten(client, q)
  }

  /** `forecast` as written: the same request; `{}` when the reply is not 2xx, the corrected result otherwise. */
  function ForecastAsWritten(client: Client, latitude: Coord, longitude: Coord, units: Option<string> := Some(DEFAULT_UNITS)): (r: (JsonValue.Value, Client))
    ensures var c := Forecast(client, latitude, longitude, units);
      var o := client.answer(|client.sent|, Request(ONECALL, BuildQuery(latitude, longitude, units, None, client.apiKey)));
      r.1 == c.1 && r.0 == if o.Received? && !Success(o.response) then EMPTY_HASH else c.0
  {
    var q := BuildQuery(latitude, longitude, units, None, client.apiKey);
    AsWrittenDiffersOnFailureStatus(client, q);
    OnecallAsWritten(client, q)
  }

  /**
   * The discrepancy: the two versions differ exactly when the reply has a
   * non-2xx status and a body that does not parse to `{}`; then the code as
   * written returns `{}` in place of the body.
   */
  lemma AsWrittenDiffersOnFailureStatus(client: Client, query: Query)
    ensures var o := client.answer(|client.sent|, Request(ONECALL, query));
      OnecallAsWritten(client, query) != Onecall(client, query) <==>
      o.Received? && !Success(o.response) && Reply(o) != EMPTY_HASH
    ensures OnecallAsWritten(client, query).1 == Onecall(client, query).1
  {
  }
}
