/** `JSON.parse(x.to_json) == x` for every well-formed value. */
module JsonRoundTrip {
  import opened Wrappers
  import opened JsonValue
  import opened JsonText

  /** What may follow an encoded value inside an enclosing encoding. */
  predicate Delimited(rest: string)
  {
    rest == [] || rest[0] == ',' || rest[0] == ']' || rest[0] == '}'
  }

  lemma HexDigitValue(n: nat)
    requires n < 16
    ensures HexValue(HexDigit(n)) == Some(n)
  {
  }

  /** The digits of a \uXXXX escape read back as the code they were written for. */
  lemma QuadValue(n: nat)
    requires n < 0x10000
    ensures HexQuad(Quad(n)) == Some(n)
  {
    var hi, lo := n / 256, n % 256;
    HexDigitValue(hi / 16);
    HexDigitValue(hi % 16);
    HexDigitValue(lo / 16);
    HexDigitValue(lo % 16);
    assert hi == hi / 16 * 16 + hi % 16;
    assert lo == lo / 16 * 16 + lo % 16;
    assert n == hi * 256 + lo;
  }

  /** Reading one escaped character yields that character and moves past its escape. */
  lemma EscapeCharStep(c: char, tail: string, acc: string)
    ensures ParseString(EscapeChar(c) + tail, acc) == ParseString(tail, acc + [c])
  {
    var s := EscapeChar(c) + tail;
    var n := c as int;
    if c == '"' || c == '\\' || n == 8 || n == 12 || c == '\n' || c == '\r' || c == '\t' {
      assert s[2..] == tail;
    } else if n < 0x20 || HtmlUnsafe(c) {
      QuadValue(n);
      assert s[2..6] == Quad(n);
      assert s[6..] == tail;
    } else {
      assert s[1..] == tail;
    }
  }

  lemma {:induction false} StringRoundTrip(s: string, acc: string, rest: string)
    ensures ParseString(Escape(s) + ['"'] + rest, acc) == Ok((acc + s, rest))
    decreases |s|
  {
    if s == [] {
      assert Escape(s) + ['"'] + rest == ['"'] + rest;
      assert acc + s == acc;
    } else {
      var tail := Escape(s[1..]) + ['"'] + rest;
      assert Escape(s) == EscapeChar(s[0]) + Escape(s[1..]);
      Regroup(EscapeChar(s[0]), Escape(s[1..]), ['"'], rest);
      EscapeCharStep(s[0], tail, acc);
      StringRoundTrip(s[1..], acc + [s[0]], rest);
      assert acc + [s[0]] + s[1..] == acc + s;
    }
  }

  lemma Regroup(a: string, b: string, c: string, d: string)
    ensures (a + b) + c + d == a + (b + c + d)
  {
  }

  lemma {:induction false} NumberRunOf(l: string, rest: string)
    requires forall i :: 0 <= i < |l| ==> IsNumberChar(l[i])
    requires rest == [] || !IsNumberChar(rest[0])
    ensures NumberRun(l + rest) == |l|
    decreases |l|
  {
    if l == [] {
      assert l + rest == rest;
    } else {
      assert (l + rest)[1..] == l[1..] + rest;
      NumberRunOf(l[1..], rest);
    }
  }

  /** The first character of an encoding: never whitespace, a separator or a closing bracket. */
  predicate StartsValue(c: char)
  {
    !IsJsonSpace(c) && c != ',' && c != ']' && c != '}' && c != ':'
  }

  lemma EncodeStart(v: Value)
    requires WellFormed(v)
    ensures |Encode(v)| > 0 && StartsValue(Encode(v)[0])
  {
    match v
    case Num(l) =>
      assert IsNumberChar(l[0]);
    case _ =>
  }

  // One step of the parser each: every lemma below unfolds one parser function once.

  lemma StepObject(s: string)
    requires s != [] && s[0] == '{'
    ensures ParseValue(s) == ParseObject(s[1..])
  {
    NoSpace(s);
  }

  lemma StepArray(s: string)
    requires s != [] && s[0] == '['
    ensures ParseValue(s) == ParseArray(s[1..])
  {
    NoSpace(s);
  }

  lemma StepString(s: string, str: string, rest: string)
    requires s != [] && s[0] == '"' && ParseString(s[1..], []) == Ok((str, rest))
    ensures ParseValue(s) == Ok((Str(str), rest))
  {
  }

  lemma StepKeyword(s: string, word: string, v: Value)
    requires (word, v) == ("null", Null) || (word, v) == ("true", Bool(true)) || (word, v) == ("false", Bool(false))
    requires HasPrefix(s, word)
    ensures ParseValue(s) == Ok((v, s[|word|..]))
  {
    assert s[0] == word[0];
    assert !IsJsonSpace(s[0]);
    if word == "true" {
      assert !HasPrefix(s, "null") by { assert s[0] != 'n'; }
    } else if word == "false" {
      assert !HasPrefix(s, "null") by { assert s[0] != 'n'; }
      assert !HasPrefix(s, "true") by { assert s[0] != 't'; }
    }
  }

  /** Whitespace skipping leaves a string that starts with a non-space alone. */
  lemma NoSpace(s: string)
    requires s != [] && !IsJsonSpace(s[0])
    ensures SkipSpace(s) == s
  {
  }

  /** A string does not start with a word whose first letter it lacks. */
  lemma NotPrefix(s: string, p: string)
    requires s != [] && p != [] && s[0] != p[0]
    ensures !HasPrefix(s, p)
  {
    if |p| <= |s| {
      assert s[..|p|][0] == s[0];
    }
  }

  lemma StepNumber(s: string)
    requires s != [] && IsNumberChar(s[0])
    ensures ParseValue(s) == ParseNumber(s)
  {
    NoSpace(s);
    assert s[0] != '{' && s[0] != '[' && s[0] != '"';
    NotPrefix(s, "null");
    NotPrefix(s, "true");
    NotPrefix(s, "false");
  }

  lemma StepEmptyArray(rest: string)
    ensures ParseArray("]" + rest) == Ok((Arr([]), rest))
  {
    assert ("]" + rest)[1..] == rest;
  }

  lemma StepEmptyObject(rest: string)
    ensures ParseObject("}" + rest) == Ok((Obj([]), rest))
  {
    assert ("}" + rest)[1..] == rest;
  }

  lemma StepFirstItem(s: string)
    requires s != [] && StartsValue(s[0])
    ensures ParseArray(s) == ParseItems(s, [])
  {
  }

  lemma StepFirstMember(s: string)
    requires s != [] && s[0] == '"'
    ensures ParseObject(s) == ParseMembers(s, [])
  {
  }

  lemma StepItem(s: string, acc: seq<Value>, v: Value, after: string)
    requires forall i :: 0 <= i < |acc| ==> WellFormed(acc[i])
    requires ParseValue(s) == Ok((v, after))
    requires after != [] && (after[0] == ',' || after[0] == ']')
    ensures after[0] == ',' ==> ParseItems(s, acc) == ParseItems(after[1..], acc + [v])
    ensures after[0] == ']' ==> ParseItems(s, acc) == Ok((Arr(acc + [v]), after[1..]))
  {
    NoSpace(after);
  }

  lemma StepMember(s: string, acc: Document, key: string, afterKey: string, v: Value, after: string)
    requires WellFormedDocument(acc) && WellFormedDocument(Set(acc, key, v))
    requires s != [] && s[0] == '"'
    requires ParseString(s[1..], []) == Ok((key, ":" + afterKey))
    requires ParseValue(afterKey) == Ok((v, after))
    requires after != [] && (after[0] == ',' || after[0] == '}')
    ensures after[0] == ',' ==> ParseMembers(s, acc) == ParseMembers(after[1..], Set(acc, key, v))
    ensures after[0] == '}' ==> ParseMembers(s, acc) == Ok((Obj(Set(acc, key, v)), after[1..]))
  {
    NoSpace(s);
    NoSpace(":" + afterKey);
    NoSpace(after);
    assert (":" + afterKey)[1..] == afterKey;
  }

  // Layout of encodings: what follows the first element or member.

  function ItemsAfter(items: seq<Value>, rest: string): string
    requires items != []
  {
    if |items| == 1 then "]" + rest else "," + EncodeItems(items[1..]) + "]" + rest
  }

  lemma ItemsLayout(items: seq<Value>, rest: string)
    requires items != []
    ensures EncodeItems(items) + "]" + rest == Encode(items[0]) + ItemsAfter(items, rest)
    ensures |items| == 1 ==> ItemsAfter(items, rest)[1..] == rest
    ensures |items| > 1 ==> ItemsAfter(items, rest)[1..] == EncodeItems(items[1..]) + "]" + rest
  {
    if |items| == 1 {
      EncodeItemsOne(items);
      CloseLayout(Encode(items[0]), "]", rest);
    } else {
      EncodeItemsMore(items);
      SeparatorLayout(Encode(items[0]), EncodeItems(items[1..]), "]", rest);
    }
  }

  lemma EncodeItemsOne(items: seq<Value>)
    requires |items| == 1
    ensures EncodeItems(items) == Encode(items[0])
  {
  }

  lemma EncodeItemsMore(items: seq<Value>)
    requires |items| > 1
    ensures EncodeItems(items) == Encode(items[0]) + "," + EncodeItems(items[1..])
  {
  }

  /** `e + close + rest`, regrouped after the last element. */
  lemma CloseLayout(e: string, close: string, rest: string)
    requires |close| == 1
    ensures e + close + rest == e + (close + rest)
    ensures (close + rest)[1..] == rest
  {
  }

  /** `e + "," + r + close + rest`, regrouped after the first element. */
  lemma SeparatorLayout(e: string, r: string, close: string, rest: string)
    ensures (e + "," + r) + close + rest == e + ("," + r + close + rest)
    ensures ("," + r + close + rest)[1..] == r + close + rest
  {
  }

  function MembersAfter(parent: Value, fields: Document, rest: string): string
    requires fields != []
    requires forall i :: 0 <= i < |fields| ==> fields[i].1 < parent
  {
    if |fields| == 1 then "}" + rest else "," + EncodeMembers(parent, fields[1..]) + "}" + rest
  }

  lemma MembersLayout(parent: Value, fields: Document, rest: string)
    requires fields != []
    requires forall i :: 0 <= i < |fields| ==> fields[i].1 < parent
    ensures var s := EncodeMembers(parent, fields) + "}" + rest;
      s != [] && s[0] == '"' &&
      s[1..] == Escape(fields[0].0) + ['"'] + (":" + (Encode(fields[0].1) + MembersAfter(parent, fields, rest)))
    ensures |fields| == 1 ==> MembersAfter(parent, fields, rest)[1..] == rest
    ensures |fields| > 1 ==> MembersAfter(parent, fields, rest)[1..] == EncodeMembers(parent, fields[1..]) + "}" + rest
  {
    var esc := Escape(fields[0].0);
    var e := Encode(fields[0].1);
    if |fields| == 1 {
      assert EncodeMembers(parent, fields) == ['"'] + esc + ['"'] + ":" + e;
      LastMemberLayout(esc, e, rest);
    } else {
      var r := EncodeMembers(parent, fields[1..]);
      assert EncodeMembers(parent, fields) == ['"'] + esc + ['"'] + ":" + e + "," + r;
      InnerMemberLayout(esc, e, r, rest);
    }
  }

  lemma LastMemberLayout(esc: string, e: string, rest: string)
    ensures var s := ['"'] + esc + ['"'] + ":" + e + "}" + rest;
      s[0] == '"' && s[1..] == esc + ['"'] + (":" + (e + ("}" + rest)))
    ensures ("}" + rest)[1..] == rest
  {
    var s := ['"'] + esc + ['"'] + ":" + e + "}" + rest;
    assert s == ['"'] + (esc + ['"'] + (":" + (e + ("}" + rest))));
  }

  lemma InnerMemberLayout(esc: string, e: string, r: string, rest: string)
    ensures var s := ['"'] + esc + ['"'] + ":" + e + "," + r + "}" + rest;
      s[0] == '"' && s[1..] == esc + ['"'] + (":" + (e + ("," + r + "}" + rest)))
    ensures ("," + r + "}" + rest)[1..] == r + "}" + rest
  {
    var s := ['"'] + esc + ['"'] + ":" + e + "," + r + "}" + rest;
    assert s == ['"'] + (esc + ['"'] + (":" + (e + ("," + r + "}" + rest))));
  }

  // The round trip itself, by structural induction on the value.

  lemma {:induction false} ValueRoundTrip(v: Value, rest: string)
    requires WellFormed(v) && Delimited(rest)
    ensures ParseValue(Encode(v) + rest) == Ok((v, rest))
    decreases v, 2
  {
    match v
    case Null => KeywordRoundTrip(v, rest);
    case Bool(_) => KeywordRoundTrip(v, rest);
    case Num(_) => NumberRoundTrip(v, rest);
    case Str(_) => StrRoundTrip(v, rest);
    case Arr(_) => ArrRoundTrip(v, rest);
    case Obj(_) => ObjRoundTrip(v, rest);
  }

  lemma KeywordRoundTrip(v: Value, rest: string)
    requires v.Null? || v.Bool?
    ensures ParseValue(Encode(v) + rest) == Ok((v, rest))
  {
    var s := Encode(v) + rest;
    var w := Encode(v);
    assert s[..|w|] == w && s[|w|..] == rest;
    StepKeyword(s, w, v);
  }

  lemma NumberRoundTrip(v: Value, rest: string)
    requires v.Num? && WellFormed(v) && Delimited(rest)
    ensures ParseValue(Encode(v) + rest) == Ok((v, rest))
  {
    var l := v.literal;
    var s := l + rest;
    NumberRunOf(l, rest);
    assert s[..|l|] == l && s[|l|..] == rest;
    assert IsNumberChar(s[0]);
    StepNumber(s);
  }

  lemma StrRoundTrip(v: Value, rest: string)
    requires v.Str?
    ensures ParseValue(Encode(v) + rest) == Ok((v, rest))
  {
    var s := Encode(v) + rest;
    assert s[1..] == Escape(v.s) + ['"'] + rest;
    StringRoundTrip(v.s, [], rest);
    assert [] + v.s == v.s;
    StepString(s, v.s, rest);
  }

  lemma {:induction false} ArrRoundTrip(v: Value, rest: string)
    requires v.Arr? && WellFormed(v)
    ensures ParseValue(Encode(v) + rest) == Ok((v, rest))
    decreases v, 1
  {
    var body := EncodeItems(v.items);
    assert Encode(v) == "[" + body + "]";
    Bracketed('[', body, ']', rest);
    StepArray(Encode(v) + rest);
    if v.items == [] {
      StepEmptyArray(rest);
    } else {
      ItemsRoundTrip(v.items, [], rest);
      assert [] + v.items == v.items;
    }
  }

  lemma {:induction false} ObjRoundTrip(v: Value, rest: string)
    requires v.Obj? && WellFormed(v)
    ensures ParseValue(Encode(v) + rest) == Ok((v, rest))
    decreases v, 1
  {
    var body := EncodeMembers(v, v.fields);
    assert Encode(v) == "{" + body + "}";
    Bracketed('{', body, '}', rest);
    StepObject(Encode(v) + rest);
    if v.fields == [] {
      StepEmptyObject(rest);
    } else {
      assert [] + v.fields == v.fields;
      MembersRoundTrip(v, v.fields, [], rest);
    }
  }

  /** The layout of a bracketed encoding followed by more text. */
  lemma Bracketed(open: char, body: string, close: char, rest: string)
    ensures var s := [open] + body + [close] + rest;
      s != [] && s[0] == open && s[1..] == body + [close] + rest
    ensures body == [] ==> body + [close] + rest == [close] + rest
  {
    var s := [open] + body + [close] + rest;
    assert s == [open] + (body + [close] + rest);
  }

  lemma {:induction false} ItemsRoundTrip(items: seq<Value>, acc: seq<Value>, rest: string)
    requires items != []
    requires forall i :: 0 <= i < |items| ==> WellFormed(items[i])
    requires forall i :: 0 <= i < |acc| ==> WellFormed(acc[i])
    ensures ParseArray(EncodeItems(items) + "]" + rest) == ParseItems(EncodeItems(items) + "]" + rest, [])
    ensures ParseItems(EncodeItems(items) + "]" + rest, acc) == Ok((Arr(acc + items), rest))
    decreases items
  {
    ItemsShift(items, acc, rest);
    ValueRoundTrip(items[0], ItemsAfter(items, rest));
    FirstItemRoundTrip(items, acc, rest);
    if |items| > 1 {
      ItemsRoundTrip(items[1..], acc + [items[0]], rest);
    }
  }

  /** Moving the first element into the accumulated ones keeps the
      preconditions of the round trip. */
  lemma ItemsShift(items: seq<Value>, acc: seq<Value>, rest: string)
    requires items != []
    requires forall i :: 0 <= i < |items| ==> WellFormed(items[i])
    requires forall i :: 0 <= i < |acc| ==> WellFormed(acc[i])
    ensures Delimited(ItemsAfter(items, rest)) && WellFormed(items[0])
    ensures forall i :: 0 <= i < |items[1..]| ==> WellFormed(items[1..][i])
    ensures forall i :: 0 <= i < |acc + [items[0]]| ==> WellFormed((acc + [items[0]])[i])
    ensures acc + [items[0]] + items[1..] == acc + items
  {
  }

  /** One element of an encoded array: it is parsed back and appended to the
      accumulated elements. */
  lemma FirstItemRoundTrip(items: seq<Value>, acc: seq<Value>, rest: string)
    requires items != []
    requires forall i :: 0 <= i < |items| ==> WellFormed(items[i])
    requires forall i :: 0 <= i < |acc| ==> WellFormed(acc[i])
    requires ParseValue(Encode(items[0]) + ItemsAfter(items, rest)) == Ok((items[0], ItemsAfter(items, rest)))
    ensures ParseArray(EncodeItems(items) + "]" + rest) == ParseItems(EncodeItems(items) + "]" + rest, [])
    ensures |items| == 1 ==> ParseItems(EncodeItems(items) + "]" + rest, acc) == Ok((Arr(acc + items), rest))
    ensures |items| > 1 ==>
      ParseItems(EncodeItems(items) + "]" + rest, acc) == ParseItems(EncodeItems(items[1..]) + "]" + rest, acc + [items[0]])
  {
    var after := ItemsAfter(items, rest);
    ItemsLayout(items, rest);
    ValueThen(items[0], after);
    ItemStep(Encode(items[0]) + after, acc, items[0], after);
    if |items| == 1 {
      assert acc + [items[0]] == acc + items;
    }
  }

  /** An encoding followed by more text starts with the encoding's first character. */
  lemma ValueThen(v: Value, after: string)
    requires WellFormed(v)
    ensures var s := Encode(v) + after; s != [] && StartsValue(s[0])
  {
    EncodeStart(v);
    assert (Encode(v) + after)[0] == Encode(v)[0];
  }

  /** The parser's first step and one element step into an array, together. */
  lemma ItemStep(s: string, acc: seq<Value>, v: Value, after: string)
    requires s != [] && StartsValue(s[0])
    requires forall i :: 0 <= i < |acc| ==> WellFormed(acc[i])
    requires ParseValue(s) == Ok((v, after))
    requires after != [] && (after[0] == ',' || after[0] == ']')
    ensures ParseArray(s) == ParseItems(s, [])
    ensures after[0] == ',' ==> ParseItems(s, acc) == ParseItems(after[1..], acc + [v])
    ensures after[0] == ']' ==> ParseItems(s, acc) == Ok((Arr(acc + [v]), after[1..]))
  {
    StepFirstItem(s);
    StepItem(s, acc, v, after);
  }

  lemma {:induction false} MembersRoundTrip(parent: Value, fields: Document, acc: Document, rest: string)
    requires fields != []
    requires forall i :: 0 <= i < |fields| ==> fields[i].1 < parent
    requires WellFormedDocument(acc)
    requires WellFormedDocument(acc + fields)
    ensures ParseObject(EncodeMembers(parent, fields) + "}" + rest) == ParseMembers(EncodeMembers(parent, fields) + "}" + rest, [])
    ensures ParseMembers(EncodeMembers(parent, fields) + "}" + rest, acc) == Ok((Obj(acc + fields), rest))
    decreases parent, 0, |fields|
  {
    MemberValueWellFormed(acc, fields);
    ValueRoundTrip(fields[0].1, MembersAfter(parent, fields, rest));
    FirstMemberRoundTrip(parent, fields, acc, rest);
    if |fields| > 1 {
      MembersShift(parent, fields, acc);
      MembersRoundTrip(parent, fields[1..], acc + [fields[0]], rest);
    }
  }

  /** Moving the first member into the accumulated document keeps the
      preconditions of the round trip. */
  lemma MembersShift(parent: Value, fields: Document, acc: Document)
    requires |fields| > 1
    requires forall i :: 0 <= i < |fields| ==> fields[i].1 < parent
    requires WellFormedDocument(acc + fields)
    ensures forall i :: 0 <= i < |fields[1..]| ==> fields[1..][i].1 < parent
    ensures acc + [fields[0]] + fields[1..] == acc + fields
    ensures WellFormedDocument(acc + [fields[0]] + fields[1..])
  {
    assert acc + [fields[0]] + fields[1..] == acc + fields;
  }

  /** One member of an encoded object: its key and value are parsed back and
      stored at the end of the accumulated document. */
  lemma FirstMemberRoundTrip(parent: Value, fields: Document, acc: Document, rest: string)
    requires fields != []
    requires forall i :: 0 <= i < |fields| ==> fields[i].1 < parent
    requires WellFormedDocument(acc)
    requires WellFormedDocument(acc + fields)
    requires ParseValue(Encode(fields[0].1) + MembersAfter(parent, fields, rest)) == Ok((fields[0].1, MembersAfter(parent, fields, rest)))
    ensures ParseObject(EncodeMembers(parent, fields) + "}" + rest) == ParseMembers(EncodeMembers(parent, fields) + "}" + rest, [])
    ensures |fields| == 1 ==> ParseMembers(EncodeMembers(parent, fields) + "}" + rest, acc) == Ok((Obj(acc + fields), rest))
    ensures WellFormedDocument(acc + [fields[0]])
    ensures |fields| > 1 ==>
      ParseMembers(EncodeMembers(parent, fields) + "}" + rest, acc) == ParseMembers(EncodeMembers(parent, fields[1..]) + "}" + rest, acc + [fields[0]])
  {
    var k := fields[0].0;
    var v := fields[0].1;
    var after := MembersAfter(parent, fields, rest);
    var s := EncodeMembers(parent, fields) + "}" + rest;
    AppendMember(acc, fields);
    MembersLayout(parent, fields, rest);
    StepFirstMember(s);
    StringRoundTrip(k, [], ":" + (Encode(v) + after));
    assert [] + k == k;
    StepMember(s, acc, k, Encode(v) + after, v, after);
  }

  /** A member whose key is new is stored at the end of the document. */
  lemma AppendMember(acc: Document, fields: Document)
    requires fields != []
    requires WellFormedDocument(acc)
    requires WellFormedDocument(acc + fields)
    ensures Set(acc, fields[0].0, fields[0].1) == acc + [fields[0]]
    ensures WellFormedDocument(acc + [fields[0]])
    ensures |fields| == 1 ==> acc + [fields[0]] == acc + fields
  {
    MemberValueWellFormed(acc, fields);
    SetWellFormed(acc, fields[0].0, fields[0].1);
    DistinctSplit(acc, fields);
    if |fields| == 1 {
      assert [fields[0]] == fields;
    }
  }

  lemma MemberValueWellFormed(acc: Document, fields: Document)
    requires fields != []
    requires WellFormedDocument(acc + fields)
    ensures WellFormed(fields[0].1)
  {
    assert (acc + fields)[|acc|] == fields[0];
  }

  lemma PrefixWellFormed(acc: Document, fields: Document)
    requires WellFormedDocument(acc + fields)
    ensures WellFormedDocument(acc)
  {
    DistinctPrefix(acc, fields);
    forall i | 0 <= i < |acc| ensures WellFormed(acc[i].1) {
      assert (acc + fields)[i] == acc[i];
    }
  }

  lemma {:induction false} KeysAppend(a: Document, b: Document)
    ensures Keys(a + b) == Keys(a) + Keys(b)
    decreases |a|
  {
    if a != [] {
      assert (a + b)[1..] == a[1..] + b;
      KeysAppend(a[1..], b);
    } else {
      assert a + b == b;
    }
  }

  lemma {:induction false} DistinctPrefix(a: Document, b: Document)
    requires DistinctKeys(a + b)
    ensures DistinctKeys(a) && DistinctKeys(b) && Keys(a) !! Keys(b)
    decreases |a|
  {
    if a == [] {
      assert a + b == b;
    } else {
      assert (a + b)[1..] == a[1..] + b;
      KeysAppend(a[1..], b);
      DistinctPrefix(a[1..], b);
    }
  }

  /** The first of the remaining keys has not been read yet. */
  lemma DistinctSplit(acc: Document, fields: Document)
    requires fields != []
    requires DistinctKeys(acc + fields)
    ensures fields[0].0 !in Keys(acc)
  {
    DistinctPrefix(acc, fields);
    assert fields[0].0 in Keys(fields);
  }

  /** Ruby's `JSON.parse(value.to_json)` gives back the value. */
  lemma RoundTrip(v: Value)
    requires WellFormed(v)
    ensures Parse(Encode(v)) == Ok(v)
  {
    ValueRoundTrip(v, []);
    assert Encode(v) + [] == Encode(v);
  }
}
