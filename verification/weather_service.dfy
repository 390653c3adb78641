/**
 * Weather::WeatherService#get_weather: picks the cache key for a location,
 * builds a weather fetcher for it, and hands that fetcher to the
 * read-through cache.
 */
module WeatherService {
  import opened Wrappers
  import opened Errors
  import opened Geo
  import opened JsonValue
  import opened Http
  import opened RedisStore
  import opened BaseFetcher
  import WeatherProviderOpenWeather
  import WeatherFetcher
  import FetchingCacheService
  import ActiveSupport
  import JsonText

  const GEOHASH_PREFIX := "weather_geohash:"
  const POSTAL_PREFIX := "weather_postal_code:"

  /** The geohash precision of the fallback key: a cell of roughly 2.4 km by 3.2 km. */
  const GEOHASH_PRECISION := 5

  /**
   * The cache key: the postal code when there is one (any string, the empty
   * one included), and the location's geohash cell only when it is nil.
   */
  function CacheKey(latitude: Coord, longitude: Coord, postalCode: Option<string>, geohash: GeoHashEncoder): (k: string)
    ensures postalCode.Some? ==>
      |POSTAL_PREFIX| <= |k| && k[..|POSTAL_PREFIX|] == POSTAL_PREFIX && k[|POSTAL_PREFIX|..] == postalCode.value
    ensures postalCode.None? ==>
      |GEOHASH_PREFIX| <= |k| && k[..|GEOHASH_PREFIX|] == GEOHASH_PREFIX &&
      k[|GEOHASH_PREFIX|..] == geohash(latitude, longitude, GEOHASH_PRECISION)
  {
    if postalCode.None? then GEOHASH_PREFIX + geohash(latitude, longitude, GEOHASH_PRECISION)
    else POSTAL_PREFIX + postalCode.value
  }

  /** No geohash key is a postal-code key: the prefixes differ at their ninth character. */
  lemma KeyKindsDisjoint(lat1: Coord, lon1: Coord, postalCode: string, lat2: Coord, lon2: Coord, geohash: GeoHashEncoder)
    ensures CacheKey(lat1, lon1, Some(postalCode), geohash) != CacheKey(lat2, lon2, None, geohash)
  {
    var postal := CacheKey(lat1, lon1, Some(postalCode), geohash);
    var cell := CacheKey(lat2, lon2, None, geohash);
    assert postal[8] == POSTAL_PREFIX[8] == 'p';
    assert cell[8] == GEOHASH_PREFIX[8] == 'g';
  }

  /** Distinct postal codes give distinct keys, whatever the coordinates. */
  lemma PostalKeysInjective(lat1: Coord, lon1: Coord, p: string, lat2: Coord, lon2: Coord, q: string, geohash: GeoHashEncoder)
    ensures CacheKey(lat1, lon1, Some(p), geohash) == CacheKey(lat2, lon2, Some(q), geohash) <==> p == q
  {
    var kp := CacheKey(lat1, lon1, Some(p), geohash);
    var kq := CacheKey(lat2, lon2, Some(q), geohash);
    if kp == kq {
      assert p == kp[|POSTAL_PREFIX|..] == kq[|POSTAL_PREFIX|..] == q;
    }
  }

  /** Without a postal code, two locations share a key exactly when they fall in the same precision-5 cell. */
  lemma GeohashKeysShareCell(lat1: Coord, lon1: Coord, lat2: Coord, lon2: Coord, geohash: GeoHashEncoder)
    ensures CacheKey(lat1, lon1, None, geohash) == CacheKey(lat2, lon2, None, geohash) <==>
      geohash(lat1, lon1, 5) == geohash(lat2, lon2, 5)
  {
    var k1 := CacheKey(lat1, lon1, None, geohash);
    var k2 := CacheKey(lat2, lon2, None, geohash);
    if k1 == k2 {
      assert geohash(lat1, lon1, 5) == k1[|GEOHASH_PREFIX|..] == k2[|GEOHASH_PREFIX|..] == geohash(lat2, lon2, 5);
    }
  }

  /** The fetcher handed to the cache: a provider for the given location and the chosen key. */
  function FetcherFor(latitude: Coord, longitude: Coord, postalCode: Option<string>, geohash: GeoHashEncoder): (f: Fetcher)
    ensures f.Weather?
    ensures f.w.provider.latitude == latitude && f.w.provider.longitude == longitude
    ensures GetKey(f) == Ok(CacheKey(latitude, longitude, postalCode, geohash))
  {
    Weather(WeatherFetcher.WeatherFetcher(WeatherProviderOpenWeather.Provider(latitude, longitude),
                                          CacheKey(latitude, longitude, postalCode, geohash)))
  }

  /** `get_weather`: the read-through cache's answer for the location's fetcher, returned unchanged. */
  method GetWeather(store: Store, latitude: Coord, longitude: Coord, postalCode: Option<string>,
                    geohash: GeoHashEncoder, client: Client) returns (r: Result<Value, Error>, client': Client)
    modifies store
    ensures var s := FetchingCacheService.ReadThrough(old(store.entries), old(store.now),
                                                      FetcherFor(latitude, longitude, postalCode, geohash), client);
      r == s.result && client' == s.client && store.entries == s.entries &&
      store.commands == old(store.commands) + s.commands
    ensures store.now == old(store.now)
  {
    var provider := WeatherProviderOpenWeather.Provider(latitude, longitude);
    var key := CacheKey(latitude, longitude, postalCode, geohash);
    var fetcher := WeatherFetcher.WeatherFetcher(provider, key);
    r, client' := FetchingCacheService.FetchOrStore(store, Weather(fetcher), client);
  }

  /**
   * Two lookups that choose the same key share one cache entry: within
   * thirty minutes of a miss for the first location, the second gets the
   * first location's forecast marked as cached, and no request is sent for
   * it, even when its coordinates differ.
   */
  lemma SharedKeySharesForecast(entries: Entries, now: int, later: int, geohash: GeoHashEncoder,
                                lat1: Coord, lon1: Coord, postal1: Option<string>, client1: Client,
                                lat2: Coord, lon2: Coord, postal2: Option<string>, client2: Client)
    requires CacheKey(lat1, lon1, postal1, geohash) == CacheKey(lat2, lon2, postal2, geohash)
    requires var f := FetcherFor(lat1, lon1, postal1, geohash);
      !ActiveSupport.Present(Visible(entries, now, GetKey(f).value)) && Fetch(f, client1).0.Ok?
    requires now <= later <= now + FetchingCacheService.TTL_SECONDS
    ensures var f1 := FetcherFor(lat1, lon1, postal1, geohash);
      var s1 := FetchingCacheService.ReadThrough(entries, now, f1, client1);
      var s2 := FetchingCacheService.ReadThrough(s1.entries, later, FetcherFor(lat2, lon2, postal2, geohash), client2);
      Fetch(f1, client1).0.value.Obj? &&
      s2.result == Ok(Obj(FetchingCacheService.MarkCached(Fetch(f1, client1).0.value.fields))) && s2.client == client2
  {
    var f1 := FetcherFor(lat1, lon1, postal1, geohash);
    var f2 := FetcherFor(lat2, lon2, postal2, geohash);
    FetchingCacheService.WeatherCachedWithinTtl(entries, now, f1, client1, later, f2, client2);
  }

  /**
   * As written, a non-2xx first reply on a miss makes the forecast `{}`:
   * the cache returns `{}`, stores "{}" under the key for thirty minutes,
   * and only one request is sent.
   */
  lemma FailureStatusCachedAsEmpty(entries: Entries, now: int, latitude: Coord, longitude: Coord,
                                   postalCode: Option<string>, geohash: GeoHashEncoder, client: Client)
    requires var f := FetcherFor(latitude, longitude, postalCode, geohash);
      var req := WeatherProviderOpenWeather.OnecallRequest(f.w.provider, None, client.apiKey);
      var first := client.answer(|client.sent|, req);
      !ActiveSupport.Present(Visible(entries, now, GetKey(f).value)) && first.Received? && !Success(first.response)
    ensures var f := FetcherFor(latitude, longitude, postalCode, geohash);
      var s := FetchingCacheService.ReadThrough(entries, now, f, client);
      var key := CacheKey(latitude, longitude, postalCode, geohash);
      s.result == Ok(Obj([])) && |s.client.sent| == |client.sent| + 1 &&
      key in s.entries && s.entries[key] == Entry("{}", Some(now + FetchingCacheService.TTL_SECONDS))
  {
    var f := FetcherFor(latitude, longitude, postalCode, geohash);
    assert Fetch(f, client).0 == Ok(Obj([]));
    FetchingCacheService.MissStoresFresh(entries, now, f, client, Obj([]));
    assert JsonText.Encode(Obj([])) == "{}";
  }
}
