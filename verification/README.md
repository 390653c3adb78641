# wthr read-through weather cache, modelled in Dafny

This project models the core of the `wthr` Rails application, which serves
weather forecasts and address autocomplete. The core is a read-through cache,
`Cache::FetchingCacheService.fetch_or_store`, over Redis, together with the
pieces that give it keys and data:

- the `Cache::BaseFetcher` interface;
- the weather fetcher;
- the cache-key choice in `Weather::WeatherService#get_weather`;
- the two OpenWeather providers, which build the query and fall back to `{}`;
- the shaping of address autocomplete results.

How each part is modelled:

- **Redis** is the class `RedisStore.Store`. It holds a map from keys to
  `(value, expiry)` entries, a logical clock in seconds, and a ghost log of
  the commands it has received. GET sees an entry up to and including its
  expiry instant, as Redis only treats a key as expired once the clock has
  passed it. SETEX with a time to live that is not positive is
  refused with Redis's error.
- **`fetch_or_store`** is the method `FetchingCacheService.FetchOrStore`,
  which modifies the store. It is proved equal to the pure function
  `FetchingCacheService.ReadThrough` run on the old state. The cache's
  properties are proved as lemmas about `ReadThrough`.
- **JSON** is concrete. `JsonText.Encode` writes what `to_json` produces
  under ActiveSupport: compact text, members in insertion order, and strings
  escaped as the json generator escapes them, with `<`, `>`, `&`, U+2028 and
  U+2029 also written as `\uXXXX`. `JsonText.Parse` is a JSON parser in
  which a duplicate key replaces the earlier value in place, as `JSON.parse`
  does. `JsonRoundTrip.RoundTrip` proves that parsing the encoding of any
  well-formed value gives back that value. A hash is an insertion-ordered
  association list (`JsonValue.Document`), and `[]=` is `JsonValue.Set`.
- **The `BaseFetcher` interface** is a closed datatype,
  `BaseFetcher.Fetcher`. It is either the weather fetcher, or another
  including class described by its name and by the methods it overrides.
  A method that is not overridden raises `NotImplementedError`. An override
  either returns a value or raises an error.
- **HTTP** is an oracle. A `Http.Client` value carries the API key, the
  server's reply to the n-th request of the session, and the log of
  requests sent. The providers thread it through, so the model says how
  many requests are sent, and which ones.
- **`GeoHash.encode`** is a function-valued parameter of the weather
  service.

Coordinates are `real`. They are carried through and never computed on.

The model follows the code where the repository's tests or doc comments
expect something else:

- On a miss, the data is returned exactly as fetched, with no `"cached"`
  key. The `merge` at `fetching_cache_service.rb:53` builds a new hash
  that is thrown away. The doc comment at :29 promises a marker on every
  return.
- The stored JSON is the fetched hash as it is. The test at
  `fetching_cache_service_spec.rb:35` expects `"cached" => "true"` in it.
- Nothing writes a `last_cache_update` marker. The test at :36 expects one.
- A hit returns the parsed hash with `"cached" => "true"` added. The test
  at :23-25 expects the stored data unchanged.
- `WeatherFetcher.new` takes a provider and a key, and the key is whatever
  it is given. The test uses three arguments and a `"weather:<geohash>"` key.
- The open-weather provider returns `parsed_response` as it is. Its test
  expects a `{today, tomorrow, next_day}` reshaping.

## Model

| member | source | states |
|---|---|---|
| JsonValue.Set | app/services/cache/fetching_cache_service.rb:48 | `Hash#[]=`: the key then maps to the new value, and every other key keeps its value and position. A new key goes last. Distinct keys stay distinct. |
| JsonValue.SetWellFormed | app/services/cache/fetching_cache_service.rb:48 | Storing a well-formed value in a well-formed hash gives a well-formed hash. |
| JsonText.EscapeChar | app/services/cache/fetching_cache_service.rb:52 | A character is written as itself, or as an escape starting with a backslash. Quote, backslash and control characters are escaped, and so are `<`, `>`, `&`, U+2028 and U+2029 as `\uXXXX`. |
| JsonText.EscapeHtmlSafe | app/services/cache/fetching_cache_service.rb:52 | Escaped text never holds `<`, `>`, `&`, U+2028 or U+2029, so every string `to_json` writes is safe inside HTML. |
| JsonText.Encode | app/services/cache/fetching_cache_service.rb:52 | `to_json`: a string is quoted, an array bracketed and a hash braced. Its inverse is `JsonText.Parse`, by `JsonRoundTrip.RoundTrip`. |
| JsonText.Parse | app/services/cache/fetching_cache_service.rb:47 | `JSON.parse`: whatever it accepts is well formed, that is valid number literals and distinct keys in every object. |
| JsonRoundTrip.RoundTrip | app/services/cache/fetching_cache_service.rb:47-52 | For every well-formed value, parsing the text `to_json` wrote gives back the same value, key order included. |
| ActiveSupport.Present | app/services/cache/fetching_cache_service.rb:46 | `present?` holds exactly for a string holding some character that is not White_Space. nil, `""` and whitespace-only strings are not present. |
| RedisStore.Visible | app/services/cache/fetching_cache_service.rb:43 | GET returns a value exactly when the key is present and the clock has not passed its expiry instant. |
| RedisStore.Written | app/services/cache/fetching_cache_service.rb:52 | After SETEX the key holds the new value, expiring `seconds` after now. Every other key is as before. |
| RedisStore.SetExThenGet | app/services/cache/fetching_cache_service.rb:43-52 | A value written with SETEX is what GET returns up to and including the instant its time to live runs out, and nothing after that instant. |
| RedisStore.SetExIsolated | app/services/cache/fetching_cache_service.rb:52 | SETEX on one key never changes what GET returns for another key, at any instant. |
| RedisStore.Store.Get | app/services/cache/fetching_cache_service.rb:43 | Returns the visible value of the key. The contents and the clock are unchanged. One GET is logged. |
| RedisStore.Store.SetEx | app/services/cache/fetching_cache_service.rb:52 | With a positive time to live it answers OK and the contents become `Written`. Otherwise it answers Redis's "invalid expire time" error and the contents are unchanged. One SETEX is logged. |
| FetchingCacheService.MarkCached | app/services/cache/fetching_cache_service.rb:48 | `"cached"` then maps to `"true"`, overwriting any value it had. Every other key looks up as before. The key set gains only `"cached"`. Well-formedness is kept. |
| FetchingCacheService.IndexOf | app/services/cache/fetching_cache_service.rb:48 | `String#index`: a result is a position where the pattern occurs, and no earlier position has it. No result means no position has it. |
| FetchingCacheService.MarkValue | app/services/cache/fetching_cache_service.rb:48 | `[]=("cached", "true")` on each class `JSON.parse` can return. It succeeds exactly on a Hash, or on a String containing "cached". A Hash is marked. A String has its first "cached", the one `String#index` finds, replaced by "true". A String without "cached" raises IndexError. An Array raises TypeError. nil, booleans and numbers raise NoMethodError. |
| FetchingCacheService.ReadHit | app/services/cache/fetching_cache_service.rb:47-49 | A parse error in the cached text propagates. Otherwise the parsed value is marked. |
| FetchingCacheService.ReadThrough | app/services/cache/fetching_cache_service.rb:31-56 | An error from `get_key` propagates with no store command, and the store and the client are unchanged. Otherwise the first command is a GET of that key. The client changes only through `fetch`. |
| FetchingCacheService.FetchOrStore | app/services/cache/fetching_cache_service.rb:31-56 | Result, client, store contents and the commands appended to the log are those of `ReadThrough` on the old store. The clock is unchanged. |
| FetchingCacheService.OnlyKeyTouched | app/services/cache/fetching_cache_service.rb:32-52 | Every command names the fetcher's key. What GET returns for any other key, at any instant, is unchanged. |
| FetchingCacheService.HitSkipsFetch | app/services/cache/fetching_cache_service.rb:46-49 | On a present hit, `fetch` is not called, the store is unchanged, one GET is sent, and the result is `ReadHit` of the stored text. |
| FetchingCacheService.HitMarksCached | app/services/cache/fetching_cache_service.rb:47-49 | A cached JSON object comes back with `"cached"` set to `"true"`, and every other key as stored. |
| FetchingCacheService.AfterMerge | app/services/cache/fetching_cache_service.rb:53-54 | The discarded `merge` leaves a fetched Hash as it is. Any other fetched value has no `merge` and raises NoMethodError. |
| FetchingCacheService.MissStoresFresh | app/services/cache/fetching_cache_service.rb:46-54 | On a missing or blank entry, the JSON of the fetched data is stored under the key with expiry now + 1800, and the commands are exactly GET then SETEX. A fetched Hash is then returned exactly as fetched. Any other fetched value raises NoMethodError after the write. |
| FetchingCacheService.FetchErrorWritesNothing | app/services/cache/fetching_cache_service.rb:51-52 | When `fetch` raises, the error propagates and nothing is written. |
| FetchingCacheService.EncodedPresent | app/services/cache/fetching_cache_service.rb:46-52 | The JSON the cache stores for any well-formed fetched value is never blank, so a later read of it is a hit. |
| FetchingCacheService.CachedWithinTtl | app/services/cache/fetching_cache_service.rb:43-52 | Up to and including 1800 s after a miss that stored D, a call with any fetcher naming the same key returns D with `"cached"` set to `"true"`. It does not fetch and does not write. |
| FetchingCacheService.ExpiredRefetches | app/services/cache/fetching_cache_service.rb:43-54 | Once more than 1800 s have passed since the write, the next call is a miss. It fetches again and returns the new data, or raises if that data is not a Hash. |
| FetchingCacheService.WeatherCachedWithinTtl | app/services/cache/fetching_cache_service.rb:43-52 | The same round trip for the weather fetcher, whose data is always a well-formed Hash. |
| BaseFetcher.MissingMethod | app/services/cache/base_fetcher.rb:31-35 | The default implementations raise NotImplementedError. The message starts with the class name and ends with the missing method's name. |
| BaseFetcher.GetKey | app/services/cache/base_fetcher.rb:30-32 | `get_key`, dispatched on the class: the weather fetcher's key, what an override returns or raises, or NotImplementedError naming the class and `#get_key`. |
| BaseFetcher.Fetch | app/services/cache/base_fetcher.rb:34-36 | `fetch`, dispatched on the class: the weather fetcher's Hash, always well formed; an override's data, which may be any JSON value; or NotImplementedError naming the class and `#fetch`. |
| BaseFetcher.GetKeyRaises | app/services/cache/base_fetcher.rb:30-32 | `get_key` raises exactly when the class does not override it, or its override raises. The weather fetcher never raises. A missing override raises NotImplementedError, and a raising override raises its own error. |
| BaseFetcher.FetchRaisesWhenMissing | app/services/cache/base_fetcher.rb:34-36 | A class that does not override `fetch` raises NotImplementedError, whose message names the class and `#fetch`. |
| WeatherFetcher.GetKey | app/services/weather/weather_fetcher.rb:28-30 | `get_key` is the key stored at construction. |
| WeatherFetcher.KeyFixedAtConstruction | app/services/weather/weather_fetcher.rb:22-30 | The key is the constructor's argument, whatever the provider. It is known without any fetch. |
| WeatherFetcher.ToH | app/services/weather/weather_fetcher.rb:33 | `to_h` on a parsed body. A Hash is itself and nil is `{}`. An Array is `PairsToH` from index 0 into `{}`, so it fails exactly when some element is not a string-keyed pair. Strings, numbers and booleans raise NoMethodError. The result is always a well-formed hash. |
| WeatherFetcher.FirstNonPair | app/services/weather/weather_fetcher.rb:33 | The position, from a given index on, of the first element that is not a string-keyed two-element array. Every element before it is one. With no result, every element from that index on is one. |
| WeatherFetcher.PairError | app/services/weather/weather_fetcher.rb:33 | What `Array#to_h` raises for a rejected element: TypeError for a non-array, ArgumentError for an array of the wrong length, and a non-string key is unrepresentable. |
| WeatherFetcher.PairsToH | app/services/weather/weather_fetcher.rb:33 | `Array#to_h`, walking the array by index, fails exactly when some element is not a string-keyed pair. The error is the first such element's, naming its index. Otherwise the result is well formed and keeps the keys it started with. |
| WeatherFetcher.PairsLookup | app/services/weather/weather_fetcher.rb:33 | An array of string-keyed pairs converts to the hash holding, for each key, the value of the last pair with that key. |
| WeatherFetcher.Fetch | app/services/weather/weather_fetcher.rb:32-34 | `fetch` is the provider's `forecast` as written, converted with `to_h`. The client changes exactly as `forecast` changes it, and the data is well formed. |
| WeatherService.CacheKey | app/services/weather/weather_service.rb:37-43 | Any postal code, `""` included, gives `"weather_postal_code:"` followed by the code. Only nil gives `"weather_geohash:"` followed by the geohash at precision 5. |
| WeatherService.KeyKindsDisjoint | app/services/weather/weather_service.rb:40-42 | No postal-code key equals a geohash key. |
| WeatherService.PostalKeysInjective | app/services/weather/weather_service.rb:42 | Two postal-code keys are equal exactly when the codes are equal, whatever the coordinates. |
| WeatherService.GeohashKeysShareCell | app/services/weather/weather_service.rb:40 | Without postal codes, two locations share a key exactly when their precision-5 geohashes are equal. |
| WeatherService.FetcherFor | app/services/weather/weather_service.rb:34-46 | The fetcher handed to the cache is a weather fetcher whose provider has the given latitude and longitude, and whose key is `CacheKey`. |
| WeatherService.GetWeather | app/services/weather/weather_service.rb:31-51 | Returns the cache's result for that fetcher unchanged, with the store changed exactly as `fetch_or_store` changes it. |
| WeatherService.SharedKeySharesForecast | app/services/weather/weather_service.rb:37-48 | Two lookups choosing the same key share one entry. Up to and including 1800 s after a miss for the first, the second gets the first location's forecast marked as cached, and no request is sent for the second. |
| WeatherService.FailureStatusCachedAsEmpty | app/services/weather/weather_provider_open_weather.rb:30-44 | As written, a non-2xx first reply on a miss sends one request, returns `{}`, and caches `"{}"` under the key for 1800 s. |
| AddressService.New | app/services/address/address_service.rb:12-14 | The service uses the injected provider, or the default one when none is given. |
| AddressService.At | app/services/address/address_service.rb:19 | `coordinates[i]` is nil exactly when i is past the end. |
| AddressService.Suggest | app/services/address/address_service.rb:19 | A suggestion holds the result's address, `coordinates[0]` as latitude and `coordinates[1]` as longitude. |
| AddressService.Shape | app/services/address/address_service.rb:18-20 | One suggestion per result, in the same order: the i-th is built from the i-th result. |
| AddressService.Autocomplete | app/services/address/address_service.rb:16-21 | The provider is searched with the query unchanged. Its error propagates. Otherwise there are as many suggestions as results, each built from its result. |
| AddressService.EmptyResultsEmptySuggestions | app/services/address/address_service.rb:18-20 | No results give no suggestions. |
| AddressService.ShapeAppend | app/services/address/address_service.rb:18-20 | Shaping distributes over concatenation: a suggestion depends on its own result alone. |
| Http.Compact | app/services/weather/weather_provider_open_weather.rb:57-63 | `Hash#compact`: every entry kept comes from a non-nil entry of the literal, and nothing is dropped when no value is nil. |
| Http.CompactMembers | app/services/weather/weather_provider_open_weather.rb:57-63 | `compact` keeps an entry exactly when its value is not nil. |
| Http.CompactKeyOrder | app/services/weather/weather_provider_open_weather.rb:57-63 | `compact` keeps the surviving entries in order. |
| Http.ParsedResponse | app/services/weather/weather_provider_open_weather.rb:35 | `parsed_response` is nil for a body that is empty after `strip`. Otherwise it is `JSON.parse` of the body, whose result is well formed. |
| Http.Reply | app/services/weather/weather_provider_open_weather.rb:33-38 | A GET that raises, or a body that does not parse, gives `{}`. Otherwise the result is the parsed body. It is always well formed. |
| Http.Send | app/services/weather/weather_provider_open_weather.rb:33 | A GET gets the server's reply for that request at that position in the session. The request is appended to the session. |
| WeatherProviderOpenWeather.BuildQuery | app/services/weather/weather_provider_open_weather.rb:55-66 | lat and lon are the given coordinates. units is always "imperial". exclude and appid are present exactly when not nil. The keys are in the order lat, lon, exclude, units, appid. |
| WeatherProviderOpenWeather.LogResponseAsWritten | app/services/weather/weather_provider_open_weather.rb:78-85 | As written: returns the response on a 2xx status, and raises ArgumentError from `inspect(response)` otherwise. |
| WeatherProviderOpenWeather.GetWeatherAsWritten | app/services/weather/weather_provider_open_weather.rb:30-39 | As written: a first GET that raises, or answers non-2xx, gives `{}` after one request. Otherwise the same request is sent again and the second reply's parsed body is returned. The result is well formed, and the API key and server are untouched. |
| WeatherProviderOpenWeather.GetWeather | app/services/weather/weather_provider_open_weather.rb:30-39 | The request is sent twice unless the first GET raises. The result is the second reply's parsed body, or `{}` on any exception. It is well formed, and the API key and server are untouched. |
| WeatherProviderOpenWeather.Forecast | app/services/weather/weather_provider_open_weather.rb:42-44 | `forecast` is `get_weather` as written with a nil exclude: its request has no `exclude` key. A first GET that raises or answers non-2xx gives `{}` after one request. Otherwise the second reply's parsed body is returned after two. The result is well formed. |
| WeatherProviderOpenWeather.RequestsCarryLocation | app/services/weather/weather_provider_open_weather.rb:24-36 | As written, two requests are appended when the first GET answers 2xx, and one otherwise. Earlier ones are kept. Each goes to "/onecall" with the constructor's lat/lon, units "imperial", the given exclude and the client's API key. |
| WeatherProviderOpenWeather.SentRequests | app/services/weather/weather_provider_open_weather.rb:30-39 | `get_weather` as written appends one copy of its request, or two when the first GET answers 2xx, and nothing else. |
| WeatherProviderOpenWeather.AsWrittenAgreesUnlessFailureStatus | app/services/weather/weather_provider_open_weather.rb:78-85 | The code as written and the corrected version agree exactly when the first GET raises or answers 2xx. |
| WeatherProviderOpenWeather.FailureStatusDiscardsBody | app/services/weather/weather_provider_open_weather.rb:82 | On a non-2xx first reply whose body parses, the code as written returns `{}` after one request. The corrected version returns the body. |
| WeatherProvider.BuildQuery | app/services/weather/weather_provider.rb:73-82 | lat and lon are the given coordinates. units, exclude and appid are present exactly when not nil. The keys are in the order lat, lon, units, exclude, appid. |
| WeatherProvider.LogResponseAsWritten | app/services/weather/weather_provider.rb:88-94 | As written: succeeds on a 2xx status, and raises ArgumentError from `inspect(response)` otherwise. |
| WeatherProvider.Onecall | app/services/weather/weather_provider.rb:37-42 | One GET of "/onecall" is recorded. The result is the reply's parsed body, or `{}` on any exception. |
| WeatherProvider.OnecallAsWritten | app/services/weather/weather_provider.rb:37-42 | As written: one GET is recorded. A non-2xx reply gives `{}`. Otherwise the result is the parsed body, or `{}` on any exception. |
| WeatherProvider.CurrentWeather | app/services/weather/weather_provider.rb:33-43 | Sends exclude "minutely,hourly,daily,alerts" and the caller's units ("imperial" by default). The result is that request's parsed reply, or `{}`. |
| WeatherProvider.Forecast | app/services/weather/weather_provider.rb:51-62 | The query has no `exclude` key, and units are passed through. The result is that request's parsed reply, or `{}`. |
| WeatherProvider.CurrentWeatherAsWritten | app/services/weather/weather_provider.rb:33-43 | As written: the same request as `CurrentWeather`. A non-2xx reply gives `{}`, and any other outcome gives `CurrentWeather`'s result. |
| WeatherProvider.ForecastAsWritten | app/services/weather/weather_provider.rb:51-62 | As written: the same request as `Forecast`. A non-2xx reply gives `{}`, and any other outcome gives `Forecast`'s result. |
| WeatherProvider.AsWrittenDiffersOnFailureStatus | app/services/weather/weather_provider.rb:92 | The code as written differs from the corrected version exactly on a non-2xx reply whose parsed body is not `{}`. The same request is sent either way. |

## Left out

- The Redis connection is not modelled: the URL lookup in the Rails configuration and `Redis.new` (`fetching_cache_service.rb:36-41`). Connection failures are not modelled either; the store always answers.
- `find_keys`, `clear_cache`, `last_cache_time` and the `last_cache_update` marker: no file of the model's source defines them.
- The clock is logical. A store's clock is the instant of the call it serves, and time passing between calls is the `later` instant of the lemmas. Redis's own expiry sweep is not modelled: an expired entry stays in the map, but GET does not see it.
- `GeoHash.encode` is a parameter: the library and its floating-point arithmetic are not part of this model.
- The network and `OPEN_WEATHER_CLIENT` are replaced by the client oracle. The HTTP details are not modelled: headers, content type, timeouts.
- `parsed_response` is modelled for a JSON body only. HTTParty's `allow_nan` (NaN and Infinity) and the removal of a byte-order mark are not modelled.
- `app/services/address/address_provider.rb` is not part of this model; the provider is a function-valued parameter.
- `app/services/weather/base_weather_provider.rb` is not part of this model: its only method is a misspelt stub.
- Controllers, JavaScript and configuration are not modelled. Logging's output is not modelled. Only one logging call affects a result: the failure message of `log_response`, which raises on every non-2xx reply (see Findings). It is modelled by `LogResponseAsWritten` in both providers. Every other log call only writes.
- Concurrency is not modelled: two requests that miss at once both fetch and both write, and the model is sequential.
- Ruby details of JSON not modelled: parse-time options, comments, the nesting limit, and lone surrogate escapes. Numbers are kept as their literal text, so `1.0` and `1.00` are different values. `JsonText.Encode` writes a number as the literal it was parsed from, whereas Ruby writes the Integer or Float the literal became: `1.0e2` is written back as `100.0`.
- WeatherFetcher.ToH: an array of pairs whose key is not a string is reported as an `Unrepresentable` error, because `JsonValue.Document` has string keys only. Ruby would build a hash with that key.
- Error messages are modelled by their class and a short message. The wording of messages that embed an `inspect` of the receiver is not modelled.
- BaseFetcher.Fetch: a fetcher other than the weather fetcher returns fixed data and does not use the client. Its data is a JSON value. Ruby objects that have no JSON form, or that define their own `to_json` or `merge`, are not modelled.
- FetchingCacheService.EncodedPresent: stated for well-formed values only. An ill-formed value, such as a number with an empty literal, has no Ruby counterpart, and its encoding may be blank.
- BaseFetcher: the contract that a key uniquely identifies the data `fetch` returns is a convention that the code does not check. `FetchingCacheService.CachedWithinTtl` shows the consequence: a fetcher that shares a key gets the first fetcher's data.
- AddressService.New: the default provider is a parameter, because `AddressProvider.new` calls the Geocoder service.
- AddressService.Autocomplete: that the provider is searched exactly once is not stated separately, because a search is a pure function here.

## Findings

| source | as written | input that shows it | evidently intended | confidence | as-written member | corrected member |
|---|---|---|---|---|---|---|
| app/services/weather/weather_provider_open_weather.rb:82 | `log_response` builds its error message with `inspect(response)`, but Object#inspect takes no argument. Every non-2xx reply therefore raises ArgumentError, which the `rescue` in `get_weather` turns into `{}`, and the second request is never sent. | a first reply with status 401 and body `{"cod":401,"message":"Invalid API key"}`: the code returns `{}` instead of the body | log the response and return it whatever its status | high, not executed | WeatherProviderOpenWeather.GetWeatherAsWritten, WeatherProviderOpenWeather.FailureStatusDiscardsBody | WeatherProviderOpenWeather.GetWeather |
| app/services/weather/weather_provider.rb:92 | The same `inspect(response)` call in `log_response` raises on every non-2xx reply, so `current_weather` and `forecast` return `{}` instead of the parsed body. | a reply with status 404 and body `{"cod":"404","message":"not found"}`: the code returns `{}` | only log the failure, and return `parsed_response` | high, not executed | WeatherProvider.OnecallAsWritten, WeatherProvider.AsWrittenDiffersOnFailureStatus | WeatherProvider.Onecall |

The cache pipeline keeps the behaviour as written: `WeatherFetcher.Fetch` calls `WeatherProviderOpenWeather.Forecast`, which is `get_weather` as written. The corrected members stand beside the as-written ones, and their properties are proved there.
