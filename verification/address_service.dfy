/**
 * Address::AddressService: autocomplete suggestions shaped from the
 * results of an injected address provider.
 */
module AddressService {
  import opened Wrappers
  import opened Errors
  import opened Geo

  /** What the service reads from a geocoder result: its address and its coordinates array. */
  datatype GeoResult = GeoResult(address: string, coordinates: seq<Coord>)

  /** The hash built per result, with exactly the keys formatted_address, latitude and longitude. */
  datatype Suggestion = Suggestion(formattedAddress: string, latitude: Option<Coord>, longitude: Option<Coord>)

  /** An address provider: its `search`, whose results come from the geocoding service and whose errors propagate. */
  datatype AddressProvider = AddressProvider(search: string -> Result<seq<GeoResult>, Error>)

  datatype AddressService = AddressService(provider: AddressProvider)

  /**
   * `AddressService.new(address_provider = AddressProvider.new)`: the
   * injected provider, or the geocoder-backed default when none is given.
   */
  function New(injected: Option<AddressProvider>, default: AddressProvider): (s: AddressService)
    ensures injected.Some? ==> s.provider == injected.value
    ensures injected.None? ==> s.provider == default
  {
    AddressService(if injected.Some? then injected.value else default)
  }

  /** Array#[] with a non-negative index: nil past the end. */
  function At(cs: seq<Coord>, i: nat): (r: Option<Coord>)
    ensures r.Some? <==> i < |cs|
    ensures r.Some? ==> r.value == cs[i]
  {
    if i < |cs| then Some(cs[i]) else None
  }

  /** The suggestion built from one result. */
  function Suggest(g: GeoResult): (s: Suggestion)
    ensures s.formattedAddress == g.address
    ensures s.latitude == At(g.coordinates, 0) && s.longitude == At(g.coordinates, 1)
  {
    Suggestion(g.address, At(g.coordinates, 0), At(g.coordinates, 1))
  }

  /** `results.map`: one suggestion per result, in the same order. */
  function Shape(results: seq<GeoResult>): (r: seq<Suggestion>)
    ensures |r| == |results|
    ensures forall i :: 0 <= i < |results| ==> r[i] == Suggest(results[i])
  {
    if results == [] then [] else [Suggest(results[0])] + Shape(results[1..])
  }

  /** `autocomplete`: the provider is searched with the query as given; its errors propagate. */
  function Autocomplete(svc: AddressService, query: string): (r: Result<seq<Suggestion>, Error>)
    ensures svc.provider.search(query).Err? ==> r == Err(svc.provider.search(query).error)
    ensures svc.provider.search(query).Ok? ==> r.Ok? && |r.value| == |svc.provider.search(query).value|
    ensures svc.provider.search(query).Ok? ==>
      forall i :: 0 <= i < |r.value| ==> r.value[i] == Suggest(svc.provider.search(query).value[i])
  {
    match svc.provider.search(query)
    case Err(e) => Err(e)
    case Ok(results) => Ok(Shape(results))
  }

  /** No results give no suggestions. */
  lemma EmptyResultsEmptySuggestions(svc: AddressService, query: string)
    requires svc.provider.search(query) == Ok([])
    ensures Autocomplete(svc, query) == Ok([])
  {
  }

  /** Shaping distributes over concatenation: each result's suggestion depends on that result alone. */
  lemma {:induction false} ShapeAppend(a: seq<GeoResult>, b: seq<GeoResult>)
    ensures Shape(a + b) == Shape(a) + Shape(b)
  {
    if a == [] {
      assert a + b == b;
    } else {
      assert (a + b)[1..] == a[1..] + b;
      ShapeAppend(a[1..], b);
    }
  }
}
