/**
 * Cache::BaseFetcher: the interface the read-through cache works against,
 * `get_key` and `fetch`, whose default implementations raise
 * NotImplementedError. The classes that include it are a closed set here:
 * the weather fetcher, and any other class described by its name and the
 * methods it overrides.
 */
module BaseFetcher {
  import opened Wrappers
  import opened Errors
  import opened JsonValue
  import opened Http
  import WeatherFetcher

  datatype Fetcher =
    | Weather(w: WeatherFetcher.WeatherFetcher)
      /**
       * A class that includes the module; `None` marks a method it does not
       * override. An override returns or raises; its `fetch` may return any
       * JSON value, a Hash or not.
       */
    | Other(className: string, getKey: Option<Result<string, Error>>, fetch: Option<Result<Value, Error>>)

  /** The message of the default implementation of method `name`, raised for class `className`. */
  function MissingMethod(className: string, name: string): (e: Error)
    ensures e.NotImplementedError?
    ensures |className| + |name| <= |e.message|
    ensures e.message[..|className|] == className
    ensures e.message[|e.message| - |name|..] == name
  {
    NotImplementedError(className + " must implement " + name)
  }

  /** `get_key`, dispatched on the fetcher's class. */
  function GetKey(f: Fetcher): (r: Result<string, Error>)
    ensures f.Weather? ==> r == Ok(WeatherFetcher.GetKey(f.w))
    ensures f.Other? && f.getKey.Some? ==> r == f.getKey.value
    ensures f.Other? && f.getKey.None? ==> r == Err(MissingMethod(f.className, "#get_key"))
  {
    match f
    case Weather(w) => Ok(WeatherFetcher.GetKey(w))
    case Other(name, k, _) => if k.Some? then k.value else Err(MissingMethod(name, "#get_key"))
  }

  /**
   * `fetch`, dispatched on the fetcher's class; only the weather fetcher
   * talks to the network, and what it returns is always a Hash.
   */
  function Fetch(f: Fetcher, client: Client): (r: (Result<Value, Error>, Client))
    ensures f.Weather? ==> var w := WeatherFetcher.Fetch(f.w, client);
      r.1 == w.1 && (w.0.Ok? ==> r.0 == Ok(Obj(w.0.value))) && (w.0.Err? ==> r.0 == Err(w.0.error))
    ensures f.Weather? && r.0.Ok? ==> r.0.value.Obj? && WellFormed(r.0.value)
    ensures f.Other? ==> r.1 == client
    ensures f.Other? && f.fetch.Some? ==> r.0 == f.fetch.value
    ensures f.Other? && f.fetch.None? ==> r.0 == Err(MissingMethod(f.className, "#fetch"))
  {
    match f
    case Weather(w) =>
      var fetched := WeatherFetcher.Fetch(w, client);
      (if fetched.0.Ok? then Ok(Obj(fetched.0.value)) else Err(fetched.0.error), fetched.1)
    case Other(name, _, d) => (if d.Some? then d.value else Err(MissingMethod(name, "#fetch")), client)
  }

  /**
   * `get_key` raises exactly when a class leaves it out (NotImplementedError)
   * or its override raises (that error); the weather fetcher never raises.
   */
  lemma GetKeyRaises(f: Fetcher)
    ensures GetKey(f).Err? <==> f.Other? && (f.getKey.None? || f.getKey.value.Err?)
    ensures f.Other? && f.getKey.None? ==> GetKey(f).Err? && GetKey(f).error.NotImplementedError?
    ensures f.Other? && f.getKey.Some? && f.getKey.value.Err? ==> GetKey(f) == Err(f.getKey.value.error)
  {
  }

  /** A class that leaves `fetch` out raises NotImplementedError naming the class and "#fetch". */
  lemma FetchRaisesWhenMissing(f: Fetcher, client: Client)
    requires f.Other? && f.fetch.None?
    ensures var e := Fetch(f, client).0;
      e.Err? && e.error.NotImplementedError? && |f.className| + 6 <= |e.error.message| &&
      e.error.message[..|f.className|] == f.className &&
      e.error.message[|e.error.message| - |"#fetch"|..] == "#fetch"
  {
  }
}
