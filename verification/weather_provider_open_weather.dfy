/**
 * Weather::WeatherProviderOpenWeather: queries the OpenWeather "/onecall"
 * endpoint for a location fixed at construction.
 */
module WeatherProviderOpenWeather {
  import opened Wrappers
  import opened Errors
  import opened Geo
  import opened JsonValue
  import opened Http

  const UNITS := "imperial"
  const DEFAULT_EXCLUDE := "minutely,hourly,daily,alerts"

  /** A provider remembers the latitude and longitude it was created with. */
  datatype Provider = Provider(latitude: Coord, longitude: Coord)

  /**
   * `build_query`: latitude, longitude, exclude, units and the client's API
   * key, in that order, with nil values removed by `compact`.
   */
  function BuildQuery(latitude: Coord, longitude: Coord, exclude: Option<string>, apiKey: Option<string>): (q: Query)
    ensures Find(q, "lat") == Some(Coordinate(latitude))
    ensures Find(q, "lon") == Some(Coordinate(longitude))
    ensures Find(q, "exclude") == TextParam(exclude)
    ensures Find(q, "units") == Some(Text(UNITS))
    ensures Find(q, "appid") == TextParam(apiKey)
    ensures KeyList(q) == ["lat"] + ["lon"] + KeyIfPresent("exclude", exclude) + ["units"] + KeyIfPresent("appid", apiKey)
  {
    var lat, lon := ("lat", Some(Coordinate(latitude))), ("lon", Some(Coordinate(longitude)));
    var exc, units, appid := ("exclude", TextParam(exclude)), ("units", Some(Text(UNITS))), ("appid", TextParam(apiKey));
    CompactFive(lat, lon, exc, units, appid);
    FiveEntries(lat, lon, exc, units, appid);
    assert KeptName(lat) == ["lat"] && KeptName(lon) == ["lon"] && KeptName(units) == ["units"];
    assert KeptName(exc) == KeyIfPresent("exclude", exclude) && KeptName(appid) == KeyIfPresent("appid", apiKey);
    Compact([lat, lon, exc, units, appid])
  }

  /** The request both GETs of `get_weather` send. */
  function OnecallRequest(p: Provider, exclude: Option<string>, apiKey: Option<string>): Request
  {
    Request(ONECALL, BuildQuery(p.latitude, p.longitude, exclude, apiKey))
  }

  /**
   * `log_response` as written: on a 2xx reply it logs and returns the
   * response; otherwise building the log message calls `inspect(response)`,
   * and Object#inspect takes no argument, so it raises.
   */
  function LogResponseAsWritten(r: Response): (out: Result<Response, Error>)
    ensures out.Ok? <==> Success(r)
    ensures out.Ok? ==> out.value == r
    ensures out.Err? ==> out.error == INSPECT_ARITY
  {
    if Success(r) then Ok(r) else Err(INSPECT_ARITY)
  }

  /**
   * `get_weather` as written: `perform_query` sends the request and logs
   * the reply, then the same request is sent again and the second reply's
   * parsed body is returned. Any exception, including the one
   * `log_response` raises on a non-2xx reply, yields `{}`.
   */
  function GetWeatherAsWritten(p: Provider, client: Client, exclude: Option<string> := Some(DEFAULT_EXCLUDE)): (r: (Value, Client))
    ensures r.1.apiKey == client.apiKey && r.1.answer == client.answer
    ensures WellFormed(r.0)
    ensures var req := OnecallRequest(p, exclude, client.apiKey);
      var first := client.answer(|client.sent|, req);
      (first.Raised? || !Success(first.response) ==>
         r == (EMPTY_HASH, client.(sent := client.sent + [req]))) &&
      (first.Received? && Success(first.response) ==>
         r == (Reply(client.answer(|client.sent| + 1, req)), client.(sent := client.sent + [req, req])))
  {
    var req := OnecallRequest(p, exclude, client.apiKey);
    var first := Send(client, req);
    if first.0.Raised? || LogResponseAsWritten(first.0.response).Err? then (EMPTY_HASH, first.1)
    else
      var second := Send(first.1, req);
      assert second.1.sent == client.sent + [req, req];
      (Reply(second.0), second.1)
  }

  /**
   * `get_weather` with `log_response` returning its argument whatever the
   * status: the request is sent twice unless the first GET raises, and the
   * result is the second reply's parsed body, or `{}` on any exception.
   */
  function GetWeather(p: Provider, client: Client, exclude: Option<string> := Some(DEFAULT_EXCLUDE)): (r: (Value, Client))
    ensures r.1.apiKey == client.apiKey && r.1.answer == client.answer
    ensures var req := OnecallRequest(p, exclude, client.apiKey);
      var first := client.answer(|client.sent|, req);
      (first.Raised? ==> r == (EMPTY_HASH, client.(sent := client.sent + [req]))) &&
      (first.Received? ==>
         r == (Reply(client.answer(|client.sent| + 1, req)), client.(sent := client.sent + [req, req])))
    ensures WellFormed(r.0)
  {
    var req := OnecallRequest(p, exclude, client.apiKey);
    var first := Send(client, req);
    if first.0.Raised? then (EMPTY_HASH, first.1)
    else
      var second := Send(first.1, req);
      assert second.1.sent == client.sent + [req, req];
      (Reply(second.0), second.1)
  }

  /**
   * `forecast`: `get_weather` as written with no exclusion. Its requests
   * carry no "exclude" key; a raised or non-2xx first reply gives `{}` after
   * one request, otherwise the second reply's parsed body after two.
   */
  function Forecast(p: Provider, client: Client): (r: (Value, Client))
    ensures var req := OnecallRequest(p, None, client.apiKey);
      var first := client.answer(|client.sent|, req);
      Find(req.query, "exclude") == None &&
      (first.Raised? || !Success(first.response) ==>
         r == (EMPTY_HASH, client.(sent := client.sent + [req]))) &&
      (first.Received? && Success(first.response) ==>
         r == (Reply(client.answer(|client.sent| + 1, req)), client.(sent := client.sent + [req, req])))
    ensures WellFormed(r.0)
  {
    GetWeatherAsWritten(p, client, None)
  }

  /**
   * Every request the provider sends goes to "/onecall" for its own
   * location, in imperial units: one request when the first GET raises or
   * its reply is not 2xx, two otherwise.
   */
  lemma RequestsCarryLocation(p: Provider, client: Client, exclude: Option<string>)
    ensures var r := GetWeatherAsWritten(p, client, exclude);
      var first := client.answer(|client.sent|, OnecallRequest(p, exclude, client.apiKey));
      |r.1.sent| == |client.sent| + (if first.Received? && Success(first.response) then 2 else 1) &&
      r.1.sent[..|client.sent|] == client.sent &&
      forall i :: |client.sent| <= i < |r.1.sent| ==>
        r.1.sent[i].path == ONECALL &&
        Find(r.1.sent[i].query, "lat") == Some(Coordinate(p.latitude)) &&
        Find(r.1.sent[i].query, "lon") == Some(Coordinate(p.longitude)) &&
        Find(r.1.sent[i].query, "units") == Some(Text(UNITS)) &&
        Find(r.1.sent[i].query, "exclude") == TextParam(exclude) &&
        Find(r.1.sent[i].query, "appid") == TextParam(client.apiKey)
  {
    SentRequests(p, client, exclude);
  }

  /** `get_weather` as written appends one or two copies of its request to the session, nothing else. */
  lemma SentRequests(p: Provider, client: Client, exclude: Option<string>)
    ensures var r := GetWeatherAsWritten(p, client, exclude);
      var req := OnecallRequest(p, exclude, client.apiKey);
      var first := client.answer(|client.sent|, req);
      |r.1.sent| == |client.sent| + (if first.Received? && Success(first.response) then 2 else 1) &&
      r.1.sent[..|client.sent|] == client.sent &&
      forall i :: |client.sent| <= i < |r.1.sent| ==> r.1.sent[i] == req
  {
    var req := OnecallRequest(p, exclude, client.apiKey);
    var first := client.answer(|client.sent|, req);
    if first.Received? && Success(first.response) {
      Appended(client.sent, [req, req]);
    } else {
      Appended(client.sent, [req]);
    }
  }

  lemma Appended(s: seq<Request>, t: seq<Request>)
    requires t != [] && forall i :: 0 <= i < |t| ==> t[i] == t[0]
    ensures |s| < |s + t| && (s + t)[..|s|] == s
    ensures forall i :: |s| <= i < |s + t| ==> (s + t)[i] == t[0]
  {
  }

  /** The two versions agree whenever the first reply is a 2xx response or the first GET raises. */
  lemma AsWrittenAgreesUnlessFailureStatus(p: Provider, client: Client, exclude: Option<string>)
    ensures var first := client.answer(|client.sent|, OnecallRequest(p, exclude, client.apiKey));
      first.Raised? || Success(first.response) <==>
      GetWeatherAsWritten(p, client, exclude) == GetWeather(p, client, exclude)
  {
  }

  /**
   * The discrepancy: when the first reply has a non-2xx status, the code as
   * written returns `{}` after one request, even when the server's body
   * parses; the corrected version returns the body of the second reply.
   */
  lemma FailureStatusDiscardsBody(p: Provider, client: Client, exclude: Option<string>, body: Value)
    requires var req := OnecallRequest(p, exclude, client.apiKey);
      var first := client.answer(|client.sent|, req);
      first.Received? && !Success(first.response) &&
      client.answer(|client.sent| + 1, req) == first &&
      ParsedResponse(first.response) == Ok(body)
    ensures GetWeatherAsWritten(p, client, exclude).0 == EMPTY_HASH
    ensures |GetWeatherAsWritten(p, client, exclude).1.sent| == |client.sent| + 1
    ensures GetWeather(p, client, exclude).0 == body
  {
  }
}
