/**
 * JSON values as Ruby's `JSON.parse` produces them and `to_json` consumes
 * them. A Ruby Hash with string keys is an insertion-ordered list of
 * key/value pairs (a `Document`); numbers are kept as their literal text.
 */
module JsonValue {
  import opened Wrappers
  import opened Errors

  datatype Value =
    | Null
    | Bool(b: bool)
    | Num(literal: string)
    | Str(s: string)
    | Arr(items: seq<Value>)
    | Obj(fields: Document)

  /** A Ruby Hash with string keys, in insertion order. */
  type Document = seq<(string, Value)>

  function Keys(d: Document): set<string>
  {
    if d == [] then {} else {d[0].0} + Keys(d[1..])
  }

  /** No key occurs twice: every Ruby Hash has this shape. */
  predicate DistinctKeys(d: Document)
  {
    d == [] || (d[0].0 !in Keys(d[1..]) && DistinctKeys(d[1..]))
  }

  /** `hash[key]`: the value stored under `k`, or nil. */
  function Lookup(d: Document, k: string): (r: Option<Value>)
    ensures r.Some? <==> k in Keys(d)
    ensures r.Some? ==> (k, r.value) in d
  {
    if d == [] then None
    else if d[0].0 == k then Some(d[0].1)
    else Lookup(d[1..], k)
  }

  /**
   * `hash[key] = value`: an existing key keeps its position and takes the
   * new value; a new key is appended at the end.
   */
  function Set(d: Document, k: string, v: Value): (r: Document)
    ensures Lookup(r, k) == Some(v)
    ensures forall k' :: k' != k ==> Lookup(r, k') == Lookup(d, k')
    ensures Keys(r) == Keys(d) + {k}
    ensures k !in Keys(d) ==> r == d + [(k, v)]
    ensures k in Keys(d) ==> |r| == |d| && forall i :: 0 <= i < |d| ==> r[i].0 == d[i].0
    ensures DistinctKeys(d) ==> DistinctKeys(r)
    ensures forall p :: p in r ==> p in d || p == (k, v)
  {
    if d == [] then [(k, v)]
    else if d[0].0 == k then [(k, v)] + d[1..]
    else [d[0]] + Set(d[1..], k, v)
  }

  predicate IsDigit(c: char)
  {
    '0' <= c <= '9'
  }

  /** The characters a JSON number literal is made of. */
  predicate IsNumberChar(c: char)
  {
    IsDigit(c) || c == '-' || c == '+' || c == '.' || c == 'e' || c == 'E'
  }

  /** The number of leading decimal digits of `s`. */
  function DigitRun(s: string): (n: nat)
    ensures n <= |s|
    ensures forall i :: 0 <= i < n ==> IsDigit(s[i])
    ensures n < |s| ==> !IsDigit(s[n])
  {
    if s == [] || !IsDigit(s[0]) then 0 else 1 + DigitRun(s[1..])
  }

  /** The JSON number grammar: -?(0|[1-9][0-9]*)(\.[0-9]+)?([eE][+-]?[0-9]+)? */
  predicate NumberGrammar(s: string)
  {
    var i := if |s| > 0 && s[0] == '-' then 1 else 0;
    var d := DigitRun(s[i..]);
    d > 0 && (s[i] == '0' ==> d == 1) && FractionAndExponent(s[i + d..])
  }

  predicate FractionAndExponent(s: string)
  {
    if |s| > 0 && s[0] == '.' then
      var d := DigitRun(s[1..]);
      d > 0 && Exponent(s[1 + d..])
    else
      Exponent(s)
  }

  predicate Exponent(s: string)
  {
    s == [] ||
    ((s[0] == 'e' || s[0] == 'E') &&
     var i := if |s| > 1 && (s[1] == '+' || s[1] == '-') then 2 else 1;
     var d := DigitRun(s[i..]);
     d > 0 && i + d == |s|)
  }

  predicate ValidNumber(s: string)
  {
    |s| > 0 && (forall i :: 0 <= i < |s| ==> IsNumberChar(s[i])) && NumberGrammar(s)
  }

  /** A value some Ruby object serialises to: valid number literals and hashes without duplicate keys. */
  predicate WellFormed(v: Value)
  {
    match v
    case Num(l) => ValidNumber(l)
    case Arr(items) => forall i :: 0 <= i < |items| ==> WellFormed(items[i])
    case Obj(fields) => DistinctKeys(fields) && forall i :: 0 <= i < |fields| ==> WellFormed(fields[i].1)
    case _ => true
  }

  predicate WellFormedDocument(d: Document)
  {
    WellFormed(Obj(d))
  }

  /** Storing a well-formed value keeps a document well formed. */
  lemma SetWellFormed(acc: Document, key: string, v: Value)
    requires WellFormedDocument(acc) && WellFormed(v)
    ensures WellFormedDocument(Set(acc, key, v))
  {
    var acc' := Set(acc, key, v);
    forall i | 0 <= i < |acc'| ensures WellFormed(acc'[i].1) {
      assert acc'[i] in acc';
    }
  }

  /** The Ruby class `JSON.parse` produces for a value. */
  function RubyClass(v: Value): string
  {
    match v
    case Null => "NilClass"
    case Bool(b) => if b then "TrueClass" else "FalseClass"
    case Num(l) => if exists i :: 0 <= i < |l| && l[i] in {'.', 'e', 'E'} then "Float" else "Integer"
    case Str(_) => "String"
    case Arr(_) => "Array"
    case Obj(_) => "Hash"
  }

  /**
   * The NoMethodError raised when method `name` is called on a value whose
   * class does not define it: nil, true and false are named, any other
   * receiver by its class.
   */
  function UndefinedMethod(name: string, v: Value): (e: Error)
    ensures e.NoMethodError?
  {
    var receiver :=
      match v
      case Null => "nil"
      case Bool(b) => if b then "true" else "false"
      case _ => "an instance of " + RubyClass(v);
    NoMethodError("undefined method '" + name + "' for " + receiver)
  }

  /** The decimal digits of a natural number, as Integer#to_s writes them. */
  function Decimal(n: nat): (r: string)
    ensures |r| > 0
  {
    if n < 10 then [DigitChar(n)] else Decimal(n / 10) + [DigitChar(n % 10)]
  }

  function DigitChar(d: nat): (c: char)
    requires d < 10
    ensures IsDigit(c)
  {
    "0123456789"[d]
  }
}

/** ActiveSupport's `blank?` / `present?` on the value a Redis GET returns. */
module ActiveSupport {
  import opened Wrappers

  /** The POSIX class [[:space:]] on Unicode text (the White_Space property). */
  predicate IsSpace(c: char)
  {
    var n := c as int;
    (0x09 <= n <= 0x0D) || n == 0x20 || n == 0x85 || n == 0xA0 || n == 0x1680 ||
    (0x2000 <= n <= 0x200A) || n == 0x2028 || n == 0x2029 || n == 0x202F ||
    n == 0x205F || n == 0x3000
  }

  /** `String#blank?`: empty or whitespace only. */
  predicate Blank(s: string)
  {
    forall i :: 0 <= i < |s| ==> IsSpace(s[i])
  }

  /** `present?` on a String-or-nil: nil and blank strings are not present. */
  function Present(v: Option<string>): (r: bool)
    ensures r <==> v.Some? && exists i :: 0 <= i < |v.value| && !IsSpace(v.value[i])
  {
    v.Some? && !Blank(v.value)
  }
}
