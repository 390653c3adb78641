/**
 * What the weather providers see of HTTParty: query hashes, responses with
 * a status code and a body, `parsed_response`, `success?`, and a client whose
 * replies come from the remote server, which is outside the model.
 */
module Http {
  import opened Wrappers
  import opened Errors
  import opened Geo
  import opened JsonValue
  import JsonText

  /** A query value: a coordinate or a string. */
  datatype Param = Coordinate(c: Coord) | Text(s: string)

  /** A hash literal of query parameters before `compact`; `None` is a nil value. */
  type RawQuery = seq<(string, Option<Param>)>

  /** A query as sent, in the order its keys were written. */
  type Query = seq<(string, Param)>

  /** The value stored under `k` in an association list (its first occurrence). */
  function Find<V>(q: seq<(string, V)>, k: string): Option<V>
  {
    if q == [] then None
    else if q[0].0 == k then Some(q[0].1)
    else Find(q[1..], k)
  }

  /** A string argument as a query value; nil stays nil. */
  function TextParam(s: Option<string>): (r: Option<Param>)
    ensures r.Some? <==> s.Some?
  {
    if s.Some? then Some(Text(s.value)) else None
  }

  /** The key `name` when the optional value is there, nothing when it is nil. */
  function KeyIfPresent(name: string, s: Option<string>): (r: seq<string>)
    ensures s.Some? ==> r == [name]
    ensures s.None? ==> r == []
  {
    if s.Some? then [name] else []
  }

  /** The keys of an association list, in order. */
  function KeyList<V>(q: seq<(string, V)>): (r: seq<string>)
    ensures |r| == |q| && forall i :: 0 <= i < |q| ==> r[i] == q[i].0
  {
    if q == [] then [] else [q[0].0] + KeyList(q[1..])
  }

  /** `Hash#compact`: drops the nil-valued entries and keeps the others in order. */
  function Compact(q: RawQuery): (r: Query)
    ensures |r| <= |q|
    ensures forall i :: 0 <= i < |r| ==> (r[i].0, Some(r[i].1)) in q
    ensures (forall i :: 0 <= i < |q| ==> q[i].1.Some?) ==> |r| == |q|
  {
    if q == [] then []
    else match q[0].1
      case None => Compact(q[1..])
      case Some(p) => [(q[0].0, p)] + Compact(q[1..])
  }

  /** An entry survives `compact` exactly when its value is not nil. */
  lemma {:induction false} CompactMembers(q: RawQuery, k: string, p: Param)
    ensures (k, p) in Compact(q) <==> (k, Some(p)) in q
  {
    if q != [] {
      CompactMembers(q[1..], k, p);
      assert q == [q[0]] + q[1..];
    }
  }

  /** `compact` keeps the order of the surviving keys. */
  lemma {:induction false} CompactKeyOrder(a: RawQuery, b: RawQuery)
    ensures Compact(a + b) == Compact(a) + Compact(b)
  {
    if a == [] {
      assert a + b == b;
    } else {
      assert (a + b)[1..] == a[1..] + b;
      CompactKeyOrder(a[1..], b);
    }
  }

  /** What one entry of a hash literal contributes after `compact`. */
  function Kept(e: (string, Option<Param>)): (r: Query)
    ensures e.1.None? ==> r == []
    ensures e.1.Some? ==> r == [(e.0, e.1.value)]
  {
    if e.1.Some? then [(e.0, e.1.value)] else []
  }

  /** The key one entry contributes after `compact`, if any. */
  function KeptName(e: (string, Option<Param>)): seq<string>
  {
    if e.1.Some? then [e.0] else []
  }

  /** Lookup and keys of what one entry contributes. */
  lemma FindKept(e: (string, Option<Param>), k: string)
    ensures Find(Kept(e), k) == if e.0 == k then e.1 else None
    ensures KeyList(Kept(e)) == KeptName(e)
  {
  }

  /** `compact` on a five-entry hash literal, entry by entry. */
  lemma CompactFive(a: (string, Option<Param>), b: (string, Option<Param>), c: (string, Option<Param>),
                    d: (string, Option<Param>), e: (string, Option<Param>))
    ensures Compact([a, b, c, d, e]) == Kept(a) + Kept(b) + Kept(c) + Kept(d) + Kept(e)
  {
    assert [a, b, c, d, e] == [a] + [b] + [c] + [d] + [e];
    CompactKeyOrder([a] + [b] + [c] + [d], [e]);
    CompactKeyOrder([a] + [b] + [c], [d]);
    CompactKeyOrder([a] + [b], [c]);
    CompactKeyOrder([a], [b]);
    CompactOne(a);
    CompactOne(b);
    CompactOne(c);
    CompactOne(d);
    CompactOne(e);
  }

  lemma CompactOne(a: (string, Option<Param>))
    ensures Compact([a]) == Kept(a)
  {
    assert [a][1..] == [];
  }

  /** Looking a key up in a concatenation looks in the first part, then in the second. */
  lemma {:induction false} FindAppend<V>(x: seq<(string, V)>, y: seq<(string, V)>, k: string)
    ensures Find(x + y, k) == if Find(x, k).Some? then Find(x, k) else Find(y, k)
  {
    if x != [] {
      assert (x + y)[1..] == x[1..] + y;
      FindAppend(x[1..], y, k);
    } else {
      assert x + y == y;
    }
  }

  lemma {:induction false} KeyListAppend<V>(x: seq<(string, V)>, y: seq<(string, V)>)
    ensures KeyList(x + y) == KeyList(x) + KeyList(y)
  {
    if x != [] {
      assert (x + y)[1..] == x[1..] + y;
      KeyListAppend(x[1..], y);
    } else {
      assert x + y == y;
    }
  }

  /** Lookups and key order of a query made of five parts of at most one entry each. */
  lemma FiveParts(a: Query, b: Query, c: Query, d: Query, e: Query, k: string)
    ensures var q := a + b + c + d + e;
      Find(q, k) ==
        if Find(a, k).Some? then Find(a, k) else if Find(b, k).Some? then Find(b, k)
        else if Find(c, k).Some? then Find(c, k) else if Find(d, k).Some? then Find(d, k)
        else Find(e, k)
    ensures KeyList(a + b + c + d + e) == KeyList(a) + KeyList(b) + KeyList(c) + KeyList(d) + KeyList(e)
  {
    FindAppend(a + b + c + d, e, k);
    FindAppend(a + b + c, d, k);
    FindAppend(a + b, c, k);
    FindAppend(a, b, k);
    KeyListAppend(a + b + c + d, e);
    KeyListAppend(a + b + c, d);
    KeyListAppend(a + b, c);
    KeyListAppend(a, b);
  }

  /**
   * Lookups and key order after `compact` of a five-entry hash literal whose
   * keys are the five distinct names used by the weather queries.
   */
  lemma FiveEntries(a: (string, Option<Param>), b: (string, Option<Param>), c: (string, Option<Param>),
                    d: (string, Option<Param>), e: (string, Option<Param>))
    requires a.0 == "lat" && b.0 == "lon" && e.0 == "appid"
    requires (c.0, d.0) == ("exclude", "units") || (c.0, d.0) == ("units", "exclude")
    ensures var q := Kept(a) + Kept(b) + Kept(c) + Kept(d) + Kept(e);
      Find(q, a.0) == a.1 && Find(q, b.0) == b.1 && Find(q, c.0) == c.1 && Find(q, d.0) == d.1 && Find(q, e.0) == e.1 &&
      KeyList(q) == KeptName(a) + KeptName(b) + KeptName(c) + KeptName(d) + KeptName(e)
  {
    assert "lat"[1] != "lon"[1] && "units"[0] != "appid"[0];
    FindEach(a, b, c, d, e, a.0);
    FindEach(a, b, c, d, e, b.0);
    FindEach(a, b, c, d, e, c.0);
    FindEach(a, b, c, d, e, d.0);
    FindEach(a, b, c, d, e, e.0);
  }

  lemma FindEach(a: (string, Option<Param>), b: (string, Option<Param>), c: (string, Option<Param>),
                 d: (string, Option<Param>), e: (string, Option<Param>), k: string)
    requires a.0 != b.0 && a.0 != c.0 && a.0 != d.0 && a.0 != e.0 && b.0 != c.0
    requires b.0 != d.0 && b.0 != e.0 && c.0 != d.0 && c.0 != e.0 && d.0 != e.0
    ensures var q := Kept(a) + Kept(b) + Kept(c) + Kept(d) + Kept(e);
      Find(q, k) ==
        if a.0 == k then a.1 else if b.0 == k then b.1 else if c.0 == k then c.1
        else if d.0 == k then d.1 else if e.0 == k then e.1 else None
    ensures KeyList(Kept(a) + Kept(b) + Kept(c) + Kept(d) + Kept(e)) ==
      KeptName(a) + KeptName(b) + KeptName(c) + KeptName(d) + KeptName(e)
  {
    FiveParts(Kept(a), Kept(b), Kept(c), Kept(d), Kept(e), k);
    FindKept(a, k);
    FindKept(b, k);
    FindKept(c, k);
    FindKept(d, k);
    FindKept(e, k);
  }

  datatype Request = Request(path: string, query: Query)

  datatype Response = Response(code: int, body: string)

  /** HTTParty's `success?`: a 2xx status. */
  predicate Success(r: Response)
  {
    200 <= r.code <= 299
  }

  /** The characters Ruby's String#strip removes. */
  predicate IsStripSpace(c: char)
  {
    c == ' ' || c == '\t' || c == '\n' || c == '\U{B}' || c == '\U{C}' || c == '\r' || c == '\0'
  }

  /**
   * `parsed_response` for a JSON reply: nil when the body is empty or only
   * whitespace, otherwise `JSON.parse` of the body, whose errors propagate.
   */
  function ParsedResponse(r: Response): (v: Result<Value, Error>)
    ensures (forall i :: 0 <= i < |r.body| ==> IsStripSpace(r.body[i])) ==> v == Ok(Null)
    ensures (exists i :: 0 <= i < |r.body| && !IsStripSpace(r.body[i])) ==> v == JsonText.Parse(r.body)
    ensures v.Ok? ==> WellFormed(v.value)
  {
    if forall i :: 0 <= i < |r.body| ==> IsStripSpace(r.body[i]) then Ok(Null)
    else JsonText.Parse(r.body)
  }

  /** What a GET does: it raises, or it returns a response. */
  datatype Outcome = Raised(error: Error) | Received(response: Response)

  /** The OpenWeather endpoint both providers query. */
  const ONECALL := "/onecall"

  /** The `{}` the providers' `rescue` clauses return. */
  const EMPTY_HASH: Value := Obj([])

  /** What `inspect(response)` raises: Object#inspect takes no arguments. */
  const INSPECT_ARITY := ArgumentError("wrong number of arguments (given 1, expected 0)")

  /**
   * The value of `response.parsed_response` under the method's rescue:
   * an exception from the GET or from parsing the body becomes `{}`.
   */
  function Reply(o: Outcome): (v: Value)
    ensures o.Raised? ==> v == EMPTY_HASH
    ensures o.Received? && ParsedResponse(o.response).Err? ==> v == EMPTY_HASH
    ensures o.Received? && ParsedResponse(o.response).Ok? ==> v == ParsedResponse(o.response).value
    ensures WellFormed(v)
  {
    match o
    case Raised(_) => EMPTY_HASH
    case Received(resp) =>
      match ParsedResponse(resp)
      case Ok(v) => v
      case Err(_) => EMPTY_HASH
  }


  /**
   * A configured client: its API key, the remote server's reply to the n-th
   * request of the session, and the requests sent so far.
   */
  datatype Client = Client(apiKey: Option<string>, answer: (nat, Request) -> Outcome, sent: seq<Request>)

  /** One GET: the server answers according to the request and its position; the request is recorded. */
  function Send(c: Client, req: Request): (r: (Outcome, Client))
    ensures r.0 == c.answer(|c.sent|, req)
    ensures r.1 == c.(sent := c.sent + [req])
  {
    (c.answer(|c.sent|, req), c.(sent := c.sent + [req]))
  }
}
