/**
 * Cache::FetchingCacheService.fetch_or_store: a read-through cache over
 * Redis. The fetcher names the key; a present cached string is parsed and
 * marked as cached; otherwise the fetcher's data is stored as JSON for
 * thirty minutes and returned as fetched.
 */
module FetchingCacheService {
  import opened Wrappers
  import opened Errors
  import opened JsonValue
  import opened ActiveSupport
  import opened Http
  import opened RedisStore
  import opened BaseFetcher
  import JsonText
  import JsonRoundTrip

  /** `30.minutes.to_i`: the time to live of every entry the cache writes. */
  const TTL_SECONDS := 1800

  /** The key and value a cache hit adds to the parsed hash. */
  const CACHED_KEY := "cached"
  const CACHED_MARK := "true"

  /** `cached_hash["cached"] = "true"` on a hash. */
  function MarkCached(d: Document): (r: Document)
    ensures Lookup(r, CACHED_KEY) == Some(Str(CACHED_MARK))
    ensures forall k :: k != CACHED_KEY ==> Lookup(r, k) == Lookup(d, k)
    ensures Keys(r) == Keys(d) + {CACHED_KEY}
    ensures WellFormedDocument(d) ==> WellFormedDocument(r)
  {
    SetWellFormedIfDocument(d);
    Set(d, CACHED_KEY, Str(CACHED_MARK))
  }

  lemma SetWellFormedIfDocument(d: Document)
    ensures WellFormedDocument(d) ==> WellFormedDocument(Set(d, CACHED_KEY, Str(CACHED_MARK)))
  {
    if WellFormedDocument(d) {
      SetWellFormed(d, CACHED_KEY, Str(CACHED_MARK));
    }
  }

  /** `pat` occurs in `s` at position `j`. */
  predicate OccursAt(s: string, pat: string, j: nat)
  {
    j + |pat| <= |s| && s[j..j + |pat|] == pat
  }

  /** `String#index(pat, from)`: the first position at or after `from` where `pat` occurs. */
  function IndexOf(s: string, pat: string, from: nat): (r: Option<nat>)
    ensures r.Some? ==> from <= r.value && OccursAt(s, pat, r.value)
    ensures forall j: nat :: from <= j && (r.None? || j < r.value) ==> !OccursAt(s, pat, j)
    decreases |s| - from
  {
    if from + |pat| > |s| then None
    else if s[from..from + |pat|] == pat then Some(from)
    else IndexOf(s, pat, from + 1)
  }

  /**
   * `[]=` with the arguments "cached" and "true" on whatever JSON.parse
   * returned: a Hash stores the mark, a String replaces the first
   * occurrence of "cached" with "true", and any other class raises.
   */
  function MarkValue(v: Value): (r: Result<Value, Error>)
    ensures r.Ok? <==> v.Obj? || (v.Str? && IndexOf(v.s, CACHED_KEY, 0).Some?)
    ensures v.Obj? ==> r == Ok(Obj(MarkCached(v.fields)))
    ensures v.Str? && r.Ok? ==> var i := IndexOf(v.s, CACHED_KEY, 0).value;
      r.value == Str(v.s[..i] + CACHED_MARK + v.s[i + |CACHED_KEY|..])
    ensures v.Str? && r.Err? ==> r.error.IndexError?
    ensures v.Arr? ==> r.Err? && r.error.TypeError?
    ensures v.Null? || v.Bool? || v.Num? ==> r.Err? && r.error.NoMethodError?
  {
    match v
    case Obj(d) => Ok(Obj(MarkCached(d)))
    case Arr(_) => Err(TypeError("no implicit conversion of String into Integer"))
    case Str(s) =>
      var i := IndexOf(s, CACHED_KEY, 0);
      if i.Some? then Ok(Str(s[..i.value] + CACHED_MARK + s[i.value + |CACHED_KEY|..]))
      else Err(IndexError("string not matched"))
    case _ => Err(UndefinedMethod("[]=", v))
  }

  /** The hit path: `JSON.parse` of the cached string, whose errors propagate, then the mark. */
  function ReadHit(stored: string): (r: Result<Value, Error>)
    ensures JsonText.Parse(stored).Err? ==> r == Err(JsonText.Parse(stored).error)
    ensures JsonText.Parse(stored).Ok? ==> r == MarkValue(JsonText.Parse(stored).value)
  {
    match JsonText.Parse(stored)
    case Err(e) => Err(e)
    case Ok(v) => MarkValue(v)
  }

  /**
   * `fresh_data.merge("cached" => "false")`, whose result is discarded, then
   * `fresh_data`: a Hash comes back unchanged, and any other value has no
   * `merge` and raises.
   */
  function AfterMerge(fetched: Value): (r: Result<Value, Error>)
    ensures r.Ok? <==> fetched.Obj?
    ensures r.Ok? ==> r.value == fetched
    ensures r.Err? ==> r.error.NoMethodError?
  {
    if fetched.Obj? then Ok(fetched) else Err(UndefinedMethod("merge", fetched))
  }

  /** What one call does: its result, the client afterwards, the store's contents and the commands it sent. */
  datatype Step = Step(result: Result<Value, Error>, client: Client, entries: Entries, commands: seq<Command>)

  /** The value of one call of `fetch_or_store` against a store holding `entries` at instant `now`. */
  function ReadThrough(entries: Entries, now: int, fetcher: Fetcher, client: Client): (s: Step)
    ensures GetKey(fetcher).Err? ==> s == Step(Err(GetKey(fetcher).error), client, entries, [])
    ensures GetKey(fetcher).Ok? ==> |s.commands| > 0 && s.commands[0] == Command.Get(GetKey(fetcher).value)
    ensures s.client != client ==> s.client == Fetch(fetcher, client).1
  {
    match GetKey(fetcher)
    case Err(e) => Step(Err(e), client, entries, [])
    case Ok(key) =>
      var cached := Visible(entries, now, key);
      if Present(cached) then Step(ReadHit(cached.value), client, entries, [Command.Get(key)])
      else
        var fetched := Fetch(fetcher, client);
        if fetched.0.Err? then Step(Err(fetched.0.error), fetched.1, entries, [Command.Get(key)])
        else
          var json := JsonText.Encode(fetched.0.value);
          Step(AfterMerge(fetched.0.value), fetched.1, Written(entries, now, key, TTL_SECONDS, json),
               [Command.Get(key), Command.SetEx(key, TTL_SECONDS, json)])
  }

  /**
   * `fetch_or_store`: asks the fetcher for its key, GETs it, and either
   * returns the marked cached value or fetches, SETEXes the JSON of the
   * fetched data, and returns the fetched data, which raises after the write
   * when it is not a Hash. SETEX's reply is not looked at.
   */
  method FetchOrStore(store: Store, fetcher: Fetcher, client: Client) returns (r: Result<Value, Error>, client': Client)
    modifies store
    ensures var s := ReadThrough(old(store.entries), old(store.now), fetcher, client);
      r == s.result && client' == s.client && store.entries == s.entries &&
      store.commands == old(store.commands) + s.commands
    ensures store.now == old(store.now)
  {
    client' := client;
    var key := GetKey(fetcher);
    if key.Err? {
      r := Err(key.error);
      return;
    }
    var cached := store.Get(key.value);
    if Present(cached) {
      r := ReadHit(cached.value);
    } else {
      var fetched := Fetch(fetcher, client);
      client' := fetched.1;
      if fetched.0.Err? {
        r := Err(fetched.0.error);
      } else {
        var _ := store.SetEx(key.value, TTL_SECONDS, JsonText.Encode(fetched.0.value));
        r := AfterMerge(fetched.0.value);
      }
    }
  }

  /** Every command names the fetcher's key, and no other key's visible value changes, at any instant. */
  lemma OnlyKeyTouched(entries: Entries, now: int, fetcher: Fetcher, client: Client, other: string, t: int)
    requires GetKey(fetcher).Ok? && other != GetKey(fetcher).value
    ensures var s := ReadThrough(entries, now, fetcher, client);
      (forall i :: 0 <= i < |s.commands| ==> s.commands[i].key == GetKey(fetcher).value) &&
      Visible(s.entries, t, other) == Visible(entries, t, other)
  {
    var key := GetKey(fetcher).value;
    if !Present(Visible(entries, now, key)) && Fetch(fetcher, client).0.Ok? {
      SetExIsolated(entries, now, key, TTL_SECONDS, JsonText.Encode(Fetch(fetcher, client).0.value), other, t);
    }
  }

  /** A hit does not call `fetch` and writes nothing. */
  lemma HitSkipsFetch(entries: Entries, now: int, fetcher: Fetcher, client: Client)
    requires GetKey(fetcher).Ok? && Present(Visible(entries, now, GetKey(fetcher).value))
    ensures var s := ReadThrough(entries, now, fetcher, client);
      s.client == client && s.entries == entries && |s.commands| == 1 &&
      s.result == ReadHit(entries[GetKey(fetcher).value].value)
  {
  }

  /** A cached JSON object comes back with "cached" set to "true" and every other key as stored. */
  lemma HitMarksCached(entries: Entries, now: int, fetcher: Fetcher, client: Client, d: Document)
    requires GetKey(fetcher).Ok?
    requires var cached := Visible(entries, now, GetKey(fetcher).value);
      Present(cached) && JsonText.Parse(cached.value) == Ok(Obj(d))
    ensures var s := ReadThrough(entries, now, fetcher, client);
      s.result.Ok? && s.result.value.Obj? &&
      Lookup(s.result.value.fields, CACHED_KEY) == Some(Str(CACHED_MARK)) &&
      (forall k :: k != CACHED_KEY ==> Lookup(s.result.value.fields, k) == Lookup(d, k)) &&
      s.entries == entries
  {
  }

  /**
   * A miss (nil or blank) stores the JSON of the fetched data for thirty
   * minutes; a Hash is returned exactly as fetched, without a "cached" key
   * being added, and any other value raises NoMethodError after the write.
   */
  lemma MissStoresFresh(entries: Entries, now: int, fetcher: Fetcher, client: Client, v: Value)
    requires GetKey(fetcher).Ok? && !Present(Visible(entries, now, GetKey(fetcher).value))
    requires Fetch(fetcher, client).0 == Ok(v)
    ensures var s := ReadThrough(entries, now, fetcher, client);
      var key := GetKey(fetcher).value;
      (v.Obj? ==> s.result == Ok(v)) &&
      (!v.Obj? ==> s.result.Err? && s.result.error.NoMethodError?) &&
      s.client == Fetch(fetcher, client).1 &&
      key in s.entries && s.entries[key] == Entry(JsonText.Encode(v), Some(now + TTL_SECONDS)) &&
      s.commands == [Command.Get(key), Command.SetEx(key, TTL_SECONDS, JsonText.Encode(v))]
  {
  }

  /** When `fetch` raises, the error propagates and nothing is written. */
  lemma FetchErrorWritesNothing(entries: Entries, now: int, fetcher: Fetcher, client: Client)
    requires GetKey(fetcher).Ok? && !Present(Visible(entries, now, GetKey(fetcher).value))
    requires Fetch(fetcher, client).0.Err?
    ensures var s := ReadThrough(entries, now, fetcher, client);
      s.result == Err(Fetch(fetcher, client).0.error) && s.entries == entries && |s.commands| == 1
  {
  }

  /**
   * What the cache writes is never blank, whatever the fetched value, so a
   * later GET of it is a hit.
   */
  lemma EncodedPresent(v: Value)
    requires WellFormed(v)
    ensures Present(Some(JsonText.Encode(v)))
  {
    var json := JsonText.Encode(v);
    JsonRoundTrip.EncodeStart(v);
    if v.Num? {
      assert IsNumberChar(json[0]);
    }
    assert !IsSpace(json[0]);
  }

  /**
   * Within thirty minutes of a miss, a call with any fetcher that names
   * the same key returns the stored hash marked as cached, without
   * fetching and without writing.
   */
  lemma CachedWithinTtl(entries: Entries, now: int, first: Fetcher, client: Client, d: Document,
                        later: int, second: Fetcher, client2: Client)
    requires GetKey(first).Ok? && !Present(Visible(entries, now, GetKey(first).value))
    requires Fetch(first, client).0 == Ok(Obj(d)) && WellFormedDocument(d)
    requires GetKey(second) == GetKey(first)
    requires now <= later <= now + TTL_SECONDS
    ensures var s1 := ReadThrough(entries, now, first, client);
      var s2 := ReadThrough(s1.entries, later, second, client2);
      s2.result == Ok(Obj(MarkCached(d))) && s2.client == client2 && s2.entries == s1.entries
  {
    var key := GetKey(first).value;
    var json := JsonText.Encode(Obj(d));
    var s1 := ReadThrough(entries, now, first, client);
    SetExThenGet(entries, now, key, TTL_SECONDS, json, later);
    assert Visible(s1.entries, later, key) == Some(json);
    EncodedPresent(Obj(d));
    JsonRoundTrip.RoundTrip(Obj(d));
  }

  /** Once thirty minutes have passed the entry has expired, and the next call fetches again. */
  lemma ExpiredRefetches(entries: Entries, now: int, first: Fetcher, client: Client, v: Value,
                         later: int, second: Fetcher, client2: Client)
    requires GetKey(first).Ok? && !Present(Visible(entries, now, GetKey(first).value))
    requires Fetch(first, client).0 == Ok(v)
    requires GetKey(second) == GetKey(first)
    requires later > now + TTL_SECONDS
    ensures var s1 := ReadThrough(entries, now, first, client);
      var s2 := ReadThrough(s1.entries, later, second, client2);
      s2.client == Fetch(second, client2).1 &&
      (Fetch(second, client2).0.Ok? ==> s2.result == AfterMerge(Fetch(second, client2).0.value))
  {
    var key := GetKey(first).value;
    SetExThenGet(entries, now, key, TTL_SECONDS, JsonText.Encode(v), later);
  }

  /** For the weather fetcher, whose data is always a well-formed Hash, the stored forecast comes back marked. */
  lemma WeatherCachedWithinTtl(entries: Entries, now: int, first: Fetcher, client: Client,
                               later: int, second: Fetcher, client2: Client)
    requires first.Weather? && !Present(Visible(entries, now, GetKey(first).value))
    requires Fetch(first, client).0.Ok?
    requires GetKey(second) == GetKey(first)
    requires now <= later <= now + TTL_SECONDS
    ensures Fetch(first, client).0.value.Obj?
    ensures var s1 := ReadThrough(entries, now, first, client);
      var s2 := ReadThrough(s1.entries, later, second, client2);
      s2.result == Ok(Obj(MarkCached(Fetch(first, client).0.value.fields))) && s2.client == client2
  {
    var d := Fetch(first, client).0.value.fields;
    CachedWithinTtl(entries, now, first, client, d, later, second, client2);
  }
}
