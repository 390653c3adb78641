/**
 * JSON text: `to_json` (Ruby's json generator with its default options) and
 * `JSON.parse` (Ruby's json parser with its default options), on the values
 * of module JsonValue.
 */
module JsonText {
  import opened Wrappers
  import opened Errors
  import opened JsonValue

  // ---------------------------------------------------------------- encoding

  function HexDigit(n: nat): (c: char)
    requires n < 16
    ensures '0' <= c <= '9' || 'a' <= c <= 'f'
  {
    if n < 10 then (48 + n) as char else (87 + n) as char
  }

  /** The value of a hexadecimal digit, either case. */
  function HexValue(c: char): Option<nat>
  {
    if '0' <= c <= '9' then Some(c as int - 48)
    else if 'a' <= c <= 'f' then Some(c as int - 87)
    else if 'A' <= c <= 'F' then Some(c as int - 55)
    else None
  }

  /** Four hexadecimal digits, as used by a \uXXXX escape. */
  function HexQuad(s: string): (r: Option<nat>)
    requires |s| == 4
    ensures r.Some? ==> r.value < 0x10000
  {
    match (HexValue(s[0]), HexValue(s[1]), HexValue(s[2]), HexValue(s[3]))
    case (Some(a), Some(b), Some(c), Some(d)) =>
      if a < 16 && b < 16 && c < 16 && d < 16 then Some(((a * 16 + b) * 16 + c) * 16 + d) else None
    case _ => None
  }

  /** The four lower-case hexadecimal digits of a \uXXXX escape. */
  function Quad(n: nat): (q: string)
    requires n < 0x10000
    ensures |q| == 4
  {
    var hi, lo := n / 256, n % 256;
    [HexDigit(hi / 16), HexDigit(hi % 16), HexDigit(lo / 16), HexDigit(lo % 16)]
  }

  /**
   * ActiveSupport's escaping for `to_json`: the json generator's (quote and
   * backslash, the five named control characters, \u00XX for the other
   * control characters), then '<', '>', '&', U+2028 and U+2029 as \uXXXX;
   * everything else (including other non-ASCII characters and '/') is
   * written as it is.
   */
  function EscapeChar(c: char): (r: string)
    ensures |r| > 0 && (r[0] == '\\' <==> |r| > 1)
    ensures |r| > 1 <==> c == '"' || c == '\\' || c as int < 0x20 || HtmlUnsafe(c)
    ensures |r| == 1 ==> r == [c]
    ensures HtmlUnsafe(c) ==> r == ['\\', 'u'] + Quad(c as int)
  {
    if c == '"' then ['\\', '"']
    else if c == '\\' then ['\\', '\\']
    else if c as int == 8 then ['\\', 'b']
    else if c as int == 12 then ['\\', 'f']
    else if c == '\n' then ['\\', 'n']
    else if c == '\r' then ['\\', 'r']
    else if c == '\t' then ['\\', 't']
    else if c as int < 0x20 || HtmlUnsafe(c) then ['\\', 'u'] + Quad(c as int)
    else [c]
  }

  /** The characters ActiveSupport escapes on top of the generator: HTML's '<', '>', '&' and the two line separators. */
  predicate HtmlUnsafe(c: char)
  {
    c == '<' || c == '>' || c == '&' || c as int == 0x2028 || c as int == 0x2029
  }

  function Escape(s: string): string
  {
    if s == [] then [] else EscapeChar(s[0]) + Escape(s[1..])
  }

  /** Escaped text never holds '<', '>', '&', U+2028 or U+2029, so it is safe inside HTML. */
  lemma {:induction false} EscapeHtmlSafe(s: string)
    ensures forall i :: 0 <= i < |Escape(s)| ==> !HtmlUnsafe(Escape(s)[i])
    decreases |s|
  {
    if s != [] {
      EscapeHtmlSafe(s[1..]);
      var e := EscapeChar(s[0]);
      assert forall i :: 0 <= i < |e| ==> !HtmlUnsafe(e[i]);
      assert Escape(s) == e + Escape(s[1..]);
    }
  }

  function Quote(s: string): string
  {
    ['"'] + Escape(s) + ['"']
  }

  /**
   * `to_json` under ActiveSupport: compact output, no whitespace, members in
   * insertion order, strings escaped by EscapeChar, a number as its literal.
   */
  function Encode(v: Value): (r: string)
    ensures v.Str? || v.Arr? || v.Obj? ==> |r| >= 2
    ensures v.Str? ==> r[0] == '"' && r[|r| - 1] == '"'
    ensures v.Arr? ==> r[0] == '[' && r[|r| - 1] == ']'
    ensures v.Obj? ==> r[0] == '{' && r[|r| - 1] == '}'
    decreases v, 1, 0
  {
    match v
    case Null => "null"
    case Bool(b) => if b then "true" else "false"
    case Num(l) => l
    case Str(s) => Quote(s)
    case Arr(items) => "[" + EncodeItems(items) + "]"
    case Obj(fields) => "{" + EncodeMembers(v, fields) + "}"
  }

  function EncodeItems(items: seq<Value>): string
    decreases items
  {
    if items == [] then ""
    else if |items| == 1 then Encode(items[0])
    else Encode(items[0]) + "," + EncodeItems(items[1..])
  }

  function EncodeMembers(ghost parent: Value, fields: Document): string
    requires forall i :: 0 <= i < |fields| ==> fields[i].1 < parent
    decreases parent, 0, |fields|
  {
    if fields == [] then ""
    else
      var member := Quote(fields[0].0) + ":" + Encode(fields[0].1);
      if |fields| == 1 then member else member + "," + EncodeMembers(parent, fields[1..])
  }

  // ----------------------------------------------------------------- parsing

  predicate IsJsonSpace(c: char)
  {
    c == ' ' || c == '\t' || c == '\n' || c == '\r'
  }

  function SkipSpace(s: string): (r: string)
    ensures |r| <= |s|
    ensures r == [] || !IsJsonSpace(r[0])
  {
    if s != [] && IsJsonSpace(s[0]) then SkipSpace(s[1..]) else s
  }

  /** The length of the longest prefix of `s` made of number characters. */
  function NumberRun(s: string): (n: nat)
    ensures n <= |s|
  {
    if s == [] || !IsNumberChar(s[0]) then 0 else 1 + NumberRun(s[1..])
  }

  predicate IsHighSurrogate(n: int) { 0xD800 <= n < 0xDC00 }
  predicate IsLowSurrogate(n: int) { 0xDC00 <= n < 0xE000 }

  /**
   * The body of a string literal, after its opening quote; `acc` holds the
   * characters read so far. Raw control characters are refused; an escape
   * other than \b \f \n \r \t \uXXXX stands for the escaped character itself.
   */
  function ParseString(s: string, acc: string): (r: Result<(string, string), Error>)
    ensures r.Ok? ==> |r.value.1| < |s|
    decreases |s|
  {
    if s == [] then Err(ParserError("unexpected end of input in string"))
    else if s[0] == '"' then Ok((acc, s[1..]))
    else if s[0] == '\\' then
      if |s| < 2 || (s[1] as int) < 0x20 then Err(ParserError("invalid escape"))
      else if s[1] == 'b' then ParseString(s[2..], acc + [8 as char])
      else if s[1] == 'f' then ParseString(s[2..], acc + [12 as char])
      else if s[1] == 'n' then ParseString(s[2..], acc + ['\n'])
      else if s[1] == 'r' then ParseString(s[2..], acc + ['\r'])
      else if s[1] == 't' then ParseString(s[2..], acc + ['\t'])
      else if s[1] == 'u' then
        if |s| < 6 then Err(ParserError("incomplete unicode escape"))
        else match HexQuad(s[2..6])
          case None => Err(ParserError("incomplete unicode escape"))
          case Some(code) =>
            if IsHighSurrogate(code) then
              if |s| >= 12 && s[6] == '\\' && s[7] == 'u' then
                match HexQuad(s[8..12])
                case Some(low) =>
                  if IsLowSurrogate(low) then
                    ParseString(s[12..], acc + [(0x10000 + (code - 0xD800) * 0x400 + (low - 0xDC00)) as char])
                  else Err(ParserError("unpaired surrogate"))
                case None => Err(ParserError("incomplete unicode escape"))
              else Err(ParserError("unpaired surrogate"))
            else if IsLowSurrogate(code) then Err(ParserError("unpaired surrogate"))
            else ParseString(s[6..], acc + [code as char])
      else ParseString(s[2..], acc + [s[1]])
    else if (s[0] as int) < 0x20 then Err(ParserError("invalid character in string"))
    else ParseString(s[1..], acc + [s[0]])
  }

  predicate HasPrefix(s: string, p: string)
  {
    |p| <= |s| && s[..|p|] == p
  }

  /** One value after optional whitespace; returns the value and what follows it. */
  function ParseValue(s: string): (r: Result<(Value, string), Error>)
    ensures r.Ok? ==> |r.value.1| < |s| && WellFormed(r.value.0)
    decreases |s|, 0
  {
    var t := SkipSpace(s);
    if t == [] then Err(ParserError("unexpected end of input"))
    else if t[0] == '{' then ParseObject(t[1..])
    else if t[0] == '[' then ParseArray(t[1..])
    else if t[0] == '"' then
      match ParseString(t[1..], [])
      case Err(e) => Err(e)
      case Ok((str, rest)) => Ok((Str(str), rest))
    else if HasPrefix(t, "null") then Ok((Null, t[4..]))
    else if HasPrefix(t, "true") then Ok((Bool(true), t[4..]))
    else if HasPrefix(t, "false") then Ok((Bool(false), t[5..]))
    else if IsNumberChar(t[0]) then ParseNumber(t)
    else Err(ParserError("unexpected character"))
  }

  /**
   * A number literal: the longest run of number characters, which must
   * follow the JSON number grammar. (Ruby's parser stops at the grammar's
   * end instead; every input the two treat differently is refused by the
   * enclosing array, object or end-of-input check either way.)
   */
  function ParseNumber(t: string): (r: Result<(Value, string), Error>)
    requires t != [] && IsNumberChar(t[0])
    ensures r.Ok? ==> |r.value.1| < |t| && WellFormed(r.value.0)
  {
    var n := NumberRun(t);
    if ValidNumber(t[..n]) then Ok((Num(t[..n]), t[n..]))
    else Err(ParserError("invalid number"))
  }

  /** An array body, after its opening bracket. */
  function ParseArray(s: string): (r: Result<(Value, string), Error>)
    ensures r.Ok? ==> |r.value.1| < |s| && WellFormed(r.value.0)
    decreases |s|, 2
  {
    var t := SkipSpace(s);
    if t != [] && t[0] == ']' then Ok((Arr([]), t[1..])) else ParseItems(t, [])
  }

  /** The elements of a non-empty array; `acc` holds those read so far. */
  function ParseItems(s: string, acc: seq<Value>): (r: Result<(Value, string), Error>)
    requires forall i :: 0 <= i < |acc| ==> WellFormed(acc[i])
    ensures r.Ok? ==> |r.value.1| < |s| && WellFormed(r.value.0)
    decreases |s|, 1
  {
    match ParseValue(s)
    case Err(e) => Err(e)
    case Ok((v, rest)) =>
      var t := SkipSpace(rest);
      if t == [] then Err(ParserError("unexpected end of input in array"))
      else if t[0] == ',' then ParseItems(t[1..], acc + [v])
      else if t[0] == ']' then Ok((Arr(acc + [v]), t[1..]))
      else Err(ParserError("expected ',' or ']'"))
  }

  /** An object body, after its opening brace. */
  function ParseObject(s: string): (r: Result<(Value, string), Error>)
    ensures r.Ok? ==> |r.value.1| < |s| && WellFormed(r.value.0)
    decreases |s|, 2
  {
    var t := SkipSpace(s);
    if t != [] && t[0] == '}' then Ok((Obj([]), t[1..])) else ParseMembers(t, [])
  }

  /**
   * The members of a non-empty object; `acc` holds those read so far. A
   * repeated key overwrites the earlier value in place, as `hash[key] =
   * value` does.
   */
  function ParseMembers(s: string, acc: Document): (r: Result<(Value, string), Error>)
    requires WellFormedDocument(acc)
    ensures r.Ok? ==> |r.value.1| < |s| && WellFormed(r.value.0)
    decreases |s|, 1
  {
    var t := SkipSpace(s);
    if t == [] || t[0] != '"' then Err(ParserError("expected object key"))
    else match ParseString(t[1..], [])
      case Err(e) => Err(e)
      case Ok((key, rest)) =>
        var u := SkipSpace(rest);
        if u == [] || u[0] != ':' then Err(ParserError("expected ':'"))
        else match ParseValue(u[1..])
          case Err(e) => Err(e)
          case Ok((v, rest2)) =>
            var acc' := Set(acc, key, v);
            SetWellFormed(acc, key, v);
            var w := SkipSpace(rest2);
            if w == [] then Err(ParserError("unexpected end of input in object"))
            else if w[0] == ',' then ParseMembers(w[1..], acc')
            else if w[0] == '}' then Ok((Obj(acc'), w[1..]))
            else Err(ParserError("expected ',' or '}'"))
  }

  /** `JSON.parse`: one value, surrounded by optional whitespace and nothing else. */
  function Parse(s: string): (r: Result<Value, Error>)
    ensures r.Ok? ==> WellFormed(r.value)
  {
    match ParseValue(s)
    case Err(e) => Err(e)
    case Ok((v, rest)) => if SkipSpace(rest) == [] then Ok(v) else Err(ParserError("unexpected token after value"))
  }
}
