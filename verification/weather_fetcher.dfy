/**
 * Weather::WeatherFetcher: a cache fetcher whose key is fixed when it is
 * built and whose data is its provider's forecast, converted with `to_h`.
 */
module WeatherFetcher {
  import opened Wrappers
  import opened Errors
  import opened JsonValue
  import opened Http
  import WeatherProviderOpenWeather

  /** `WeatherFetcher.new(weather_provider, cache_key)`: both are kept as given. */
  datatype WeatherFetcher = WeatherFetcher(provider: WeatherProviderOpenWeather.Provider, key: string)

  /** `get_key`: the key given at construction. */
  function GetKey(w: WeatherFetcher): (k: string)
    ensures k == w.key
  {
    w.key
  }

  /** The key is the constructor's, whatever the provider, and no fetch is needed to know it. */
  lemma KeyFixedAtConstruction(p: WeatherProviderOpenWeather.Provider, q: WeatherProviderOpenWeather.Provider, key: string)
    ensures GetKey(WeatherFetcher(p, key)) == key
    ensures GetKey(WeatherFetcher(p, key)) == GetKey(WeatherFetcher(q, key))
  {
  }

  /**
   * `to_h` on what `parsed_response` returned: a Hash is itself, nil is `{}`,
   * an Array must hold [key, value] pairs, anything else has no `to_h`.
   */
  function ToH(v: Value): (r: Result<Document, Error>)
    requires WellFormed(v)
    ensures r.Ok? ==> WellFormedDocument(r.value)
    ensures v.Obj? ==> r == Ok(v.fields)
    ensures v.Null? ==> r == Ok([])
    ensures v.Arr? ==> r == PairsToH(v.items, 0, [])
    ensures v.Arr? ==> (r.Err? <==> FirstNonPair(v.items, 0).Some?)
    ensures v.Bool? || v.Num? || v.Str? ==> r.Err? && r.error.NoMethodError?
  {
    match v
    case Obj(d) => Ok(d)
    case Null => Ok([])
    case Arr(items) => PairsToH(items, 0, [])
    case _ => Err(UndefinedMethod("to_h", v))
  }

  /** An element Array#to_h accepts here: a two-element array whose first element, the key, is a String. */
  predicate IsPair(v: Value)
  {
    v.Arr? && |v.items| == 2 && v.items[0].Str?
  }

  /** The position of the first element at or after `from` that is not a pair, if any. */
  function FirstNonPair(items: seq<Value>, from: nat): (r: Option<nat>)
    requires from <= |items|
    ensures r.Some? ==> from <= r.value < |items| && !IsPair(items[r.value])
    ensures forall i :: from <= i < |items| && (r.None? || i < r.value) ==> IsPair(items[i])
    decreases |items| - from
  {
    if from == |items| then None
    else if !IsPair(items[from]) then Some(from)
    else FirstNonPair(items, from + 1)
  }

  /**
   * What Array#to_h raises for a rejected element at index `at`: TypeError
   * for a non-array, ArgumentError for an array of the wrong length, and a
   * key that is not a String cannot be held by a Document.
   */
  function PairError(v: Value, at: nat): (e: Error)
    requires !IsPair(v)
    ensures !v.Arr? ==> e.TypeError?
    ensures v.Arr? && |v.items| != 2 ==> e.ArgumentError?
    ensures v.Arr? && |v.items| == 2 ==> e.Unrepresentable?
  {
    if !v.Arr? then TypeError("wrong element type " + RubyClass(v) + " at " + Decimal(at) + " (expected array)")
    else if |v.items| != 2 then
      ArgumentError("wrong array length at " + Decimal(at) + " (expected 2, was " + Decimal(|v.items|) + ")")
    else Unrepresentable("key of class " + RubyClass(v.items[0]) + " at " + Decimal(at))
  }

  /**
   * Array#to_h from index `at` on, with the pairs before it already stored
   * in `acc`: each element must be a two-element array, and the first that
   * is not raises; a later pair with an existing key replaces its value in
   * place.
   */
  function PairsToH(items: seq<Value>, at: nat, acc: Document): (r: Result<Document, Error>)
    requires at <= |items|
    requires forall i :: 0 <= i < |items| ==> WellFormed(items[i])
    requires WellFormedDocument(acc)
    ensures r.Err? <==> FirstNonPair(items, at).Some?
    ensures r.Err? ==> var i := FirstNonPair(items, at).value; r.error == PairError(items[i], i)
    ensures r.Ok? ==> WellFormedDocument(r.value)
    ensures r.Ok? ==> Keys(acc) <= Keys(r.value)
    decreases |items| - at
  {
    if at == |items| then Ok(acc)
    else if !IsPair(items[at]) then Err(PairError(items[at], at))
    else PairsToH(items, at + 1, AddPair(acc, items[at]))
  }

  /** Storing one pair: its value under its key, replacing an earlier value in place. */
  function AddPair(acc: Document, pair: Value): (r: Document)
    requires WellFormedDocument(acc) && WellFormed(pair) && IsPair(pair)
    ensures WellFormedDocument(r) && Keys(acc) <= Keys(r)
  {
    SetWellFormed(acc, pair.items[0].s, pair.items[1]);
    Set(acc, pair.items[0].s, pair.items[1])
  }

  /** An array of string-keyed pairs converts to the hash holding the last value given for each key. */
  lemma {:induction false} PairsLookup(items: seq<Value>, at: nat, acc: Document, k: string)
    requires at <= |items|
    requires forall i :: 0 <= i < |items| ==> WellFormed(items[i])
    requires WellFormedDocument(acc)
    requires forall i :: at <= i < |items| ==> IsPair(items[i])
    ensures PairsToH(items, at, acc).Ok?
    ensures Lookup(PairsToH(items, at, acc).value, k) == LastPair(items, at, k, Lookup(acc, k))
    decreases |items| - at
  {
    if at < |items| {
      var acc' := AddPair(acc, items[at]);
      assert acc' == Set(acc, items[at].items[0].s, items[at].items[1]);
      PairsLookup(items, at + 1, acc', k);
    }
  }

  /** The value the last pair from index `at` on with key `k` gives, or `otherwise` when no such pair has that key. */
  function LastPair(items: seq<Value>, at: nat, k: string, otherwise: Option<Value>): Option<Value>
    requires at <= |items|
    requires forall i :: at <= i < |items| ==> IsPair(items[i])
    decreases |items| - at
  {
    if at == |items| then otherwise
    else
      assert IsPair(items[at]);
      LastPair(items, at + 1, k, if items[at].items[0].s == k then Some(items[at].items[1]) else otherwise)
  }

  /** `fetch`: the provider's `forecast`, converted with `to_h`; nothing else is asked of the provider. */
  function Fetch(w: WeatherFetcher, client: Client): (r: (Result<Document, Error>, Client))
    ensures var f := WeatherProviderOpenWeather.Forecast(w.provider, client);
      r.0 == ToH(f.0) && r.1 == f.1
    ensures r.0.Ok? ==> WellFormedDocument(r.0.value)
  {
    var f := WeatherProviderOpenWeather.Forecast(w.provider, client);
    (ToH(f.0), f.1)
  }
}
