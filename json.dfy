// The JSON values that travel on the protocol's lines (objects with string
// keys, arrays, strings, integers, booleans and null), their encoding, and
// a parser for them. Object syntax follows section 4 of RFC 8259; numbers
// are integers only, because no protocol message carries anything else.

module Json {
  import opened Errors
  import opened Text

  datatype Value =
    | Null
    | Bool(b: bool)
    | Int(i: int)
    | Str(s: string)
    | Arr(items: seq<Value>)
    | Obj(members: seq<(string, Value)>)

  // ---------------------------------------------------------------------
  // Encoding
  // ---------------------------------------------------------------------

  function HexDigit(d: nat): (c: char)
    requires d < 16
  {
    "0123456789abcdef"[d]
  }

  /** The escape sequence for one character of a string. */
  function EscapeChar(c: char): (e: string)
    ensures |e| >= 1
  {
    if c == '"' then "\\\""
    else if c == '\\' then "\\\\"
    else if c == '\n' then "\\n"
    else if c == '\r' then "\\r"
    else if c == '\t' then "\\t"
    else if c == 8 as char then "\\b"
    else if c == 12 as char then "\\f"
    else if c < ' ' then "\\u00" + [HexDigit(c as int / 16), HexDigit(c as int % 16)]
    else [c]
  }

  function Escape(s: string): string
  {
    if |s| == 0 then "" else EscapeChar(s[0]) + Escape(s[1..])
  }

  function EncodeString(s: string): string
  {
    "\"" + Escape(s) + "\""
  }

  /** The compact text of a value: no whitespace, keys in the order given. */
  function Encode(v: Value): (text: string)
    decreases v, 2
  {
    match v
    case Null => "null"
    case Bool(b) => if b then "true" else "false"
    case Int(i) => IntToDecimal(i)
    case Str(s) => EncodeString(s)
    case Arr(items) => "[" + EncodeItems(items) + "]"
    case Obj(members) => "{" + EncodeMembers(members) + "}"
  }

  function EncodeItems(items: seq<Value>): string
    decreases items, 0
  {
    if |items| == 0 then ""
    else if |items| == 1 then Encode(items[0])
    else Encode(items[0]) + "," + EncodeItems(items[1..])
  }

  function EncodeMember(m: (string, Value)): string
    decreases m, 0
  {
    EncodeString(m.0) + ":" + Encode(m.1)
  }

  function EncodeMembers(members: seq<(string, Value)>): string
    decreases members, 1
  {
    if |members| == 0 then ""
    else if |members| == 1 then EncodeMember(members[0])
    else EncodeMember(members[0]) + "," + EncodeMembers(members[1..])
  }

  // ---------------------------------------------------------------------
  // Parsing
  // ---------------------------------------------------------------------

  predicate IsSpace(c: char) { c == ' ' || c == '\t' || c == '\n' || c == '\r' }

  function SkipSpace(s: string): (r: string)
    ensures |r| <= |s|
    ensures |r| > 0 ==> !IsSpace(r[0])
  {
    if |s| > 0 && IsSpace(s[0]) then SkipSpace(s[1..]) else s
  }

  function Fault(what: string, at: string): Error
  {
    Error(JsonFormatError, "expected " + what + " at '" + at + "'")
  }

  /** The number of leading decimal digits of s. */
  function DigitSpan(s: string): (n: nat)
    ensures n <= |s|
    ensures AllDigits(s[..n])
    ensures n < |s| ==> !IsDigit(s[n])
  {
    if |s| > 0 && IsDigit(s[0]) then
      var n := 1 + DigitSpan(s[1..]);
      assert s[..n] == [s[0]] + s[1..][..n - 1];
      n
    else 0
  }

  /** An optionally signed integer at the start of s. */
  function ParseInt(s: string): (r: Result<(int, string)>)
    ensures r.Ok? ==> |r.value.1| < |s|
  {
    var neg := |s| > 0 && s[0] == '-';
    var t := if neg then s[1..] else s;
    var n := DigitSpan(t);
    if n == 0 then Fail(Fault("digit", s))
    else
      var m: int := DecimalValue(t[..n]);
      Ok((if neg then -m else m, t[n..]))
  }

  /**
   * The rest of a string literal after its opening quote: the characters up
   * to the closing quote, escapes resolved, appended to acc.
   */
  function ParseStringBody(s: string, acc: string): (r: Result<(string, string)>)
    ensures r.Ok? ==> |r.value.1| < |s|
    decreases |s|
  {
    if |s| == 0 then Fail(Fault("'\"'", s))
    else if s[0] == '"' then Ok((acc, s[1..]))
    else if s[0] != '\\' then ParseStringBody(s[1..], acc + [s[0]])
    else if |s| < 2 then Fail(Fault("escape", s))
    else if s[1] == '"' then ParseStringBody(s[2..], acc + ['"'])
    else if s[1] == '\\' then ParseStringBody(s[2..], acc + ['\\'])
    else if s[1] == '/' then ParseStringBody(s[2..], acc + ['/'])
    else if s[1] == 'n' then ParseStringBody(s[2..], acc + ['\n'])
    else if s[1] == 'r' then ParseStringBody(s[2..], acc + ['\r'])
    else if s[1] == 't' then ParseStringBody(s[2..], acc + ['\t'])
    else if s[1] == 'b' then ParseStringBody(s[2..], acc + [8 as char])
    else if s[1] == 'f' then ParseStringBody(s[2..], acc + [12 as char])
    else if s[1] == 'u' && |s| >= 6 && IsHex(s[2]) && IsHex(s[3]) && IsHex(s[4]) && IsHex(s[5]) then
      var code := ((HexValue(s[2]) * 16 + HexValue(s[3])) * 16 + HexValue(s[4])) * 16 + HexValue(s[5]);
      if 0xD800 <= code < 0xE000 then Fail(Fault("non-surrogate character", s))
      else ParseStringBody(s[6..], acc + [code as char])
    else Fail(Fault("escape", s))
  }

  function ParseKeyword(s: string, word: string, v: Value): (r: Result<(Value, string)>)
    requires |word| > 0
    ensures r.Ok? ==> |r.value.1| < |s|
  {
    if |word| <= |s| && s[..|word|] == word then Ok((v, s[|word|..])) else Fail(Fault("value", s))
  }

  /** The value at the start of s (after blanks) and what follows it. */
  function ParseValue(s: string): (r: Result<(Value, string)>)
    ensures r.Ok? ==> |r.value.1| < |s|
    decreases |s|, 2
  {
    var t := SkipSpace(s);
    if |t| == 0 then Fail(Fault("value", t))
    else if t[0] == '{' then
      match ParseObject(t)
      case Ok((ms, rest)) => Ok((Obj(ms), rest))
      case Fail(e) => Fail(e)
    else if t[0] == '[' then ParseArray(t)
    else if t[0] == '"' then
      match ParseStringBody(t[1..], "")
      case Ok((str, rest)) => Ok((Str(str), rest))
      case Fail(e) => Fail(e)
    else if t[0] == '-' || IsDigit(t[0]) then
      match ParseInt(t)
      case Ok((i, rest)) => Ok((Int(i), rest))
      case Fail(e) => Fail(e)
    else if t[0] == 't' then ParseKeyword(t, "true", Bool(true))
    else if t[0] == 'f' then ParseKeyword(t, "false", Bool(false))
    else if t[0] == 'n' then ParseKeyword(t, "null", Null)
    else Fail(Fault("value", t))
  }

  function ParseArray(s: string): (r: Result<(Value, string)>)
    requires |s| > 0 && s[0] == '['
    ensures r.Ok? ==> |r.value.1| < |s|
    decreases |s|, 1
  {
    var t := SkipSpace(s[1..]);
    if |t| > 0 && t[0] == ']' then Ok((Arr([]), t[1..])) else ParseItems(s[1..], [])
  }

  /** Array items from s on, after the acc already read, up to the closing bracket. */
  function ParseItems(s: string, acc: seq<Value>): (r: Result<(Value, string)>)
    ensures r.Ok? ==> |r.value.1| < |s|
    decreases |s|, 3
  {
    match ParseValue(s)
    case Fail(e) => Fail(e)
    case Ok((v, rest)) =>
      var t := SkipSpace(rest);
      if |t| > 0 && t[0] == ',' then ParseItems(t[1..], acc + [v])
      else if |t| > 0 && t[0] == ']' then Ok((Arr(acc + [v]), t[1..]))
      else Fail(Fault("',' or ']'", t))
  }

  /** The members of the object whose opening brace starts s, and what follows it. */
  function ParseObject(s: string): (r: Result<(seq<(string, Value)>, string)>)
    requires |s| > 0 && s[0] == '{'
    ensures r.Ok? ==> |r.value.1| < |s|
    decreases |s|, 1
  {
    var t := SkipSpace(s[1..]);
    if |t| > 0 && t[0] == '}' then Ok(([], t[1..])) else ParseMembers(s[1..], [])
  }

  function ParseMembers(s: string, acc: seq<(string, Value)>): (r: Result<(seq<(string, Value)>, string)>)
    ensures r.Ok? ==> |r.value.1| < |s|
    decreases |s|, 3
  {
    var t := SkipSpace(s);
    if |t| == 0 || t[0] != '"' then Fail(Fault("'\"'", t))
    else
      match ParseStringBody(t[1..], "")
      case Fail(e) => Fail(e)
      case Ok((key, afterKey)) =>
        var u := SkipSpace(afterKey);
        if |u| == 0 || u[0] != ':' then Fail(Fault("':'", u))
        else
          match ParseValue(u[1..])
          case Fail(e) => Fail(e)
          case Ok((v, rest)) =>
            var w := SkipSpace(rest);
            if |w| > 0 && w[0] == ',' then ParseMembers(w[1..], acc + [(key, v)])
            else if |w| > 0 && w[0] == '}' then Ok((acc + [(key, v)], w[1..]))
            else Fail(Fault("',' or '}'", w))
  }

  /**
   * One protocol line: a single object, blanks allowed around it. A line
   * that does not start with '{' is refused with the text it starts with.
   */
  function DecodeLine(line: string): (r: Result<seq<(string, Value)>>)
    ensures (|SkipSpace(line)| == 0 || SkipSpace(line)[0] != '{') ==>
              r == Fail(Error(JsonFormatError, "expected '{' at '" + SkipSpace(line) + "'"))
  {
    var t := SkipSpace(line);
    if |t| == 0 || t[0] != '{' then Fail(Error(JsonFormatError, "expected '{' at '" + t + "'"))
    else
      match ParseObject(t)
      case Fail(e) => Fail(e)
      case Ok((members, rest)) =>
        if SkipSpace(rest) == "" then Ok(members) else Fail(Fault("end of line", SkipSpace(rest)))
  }

  /** The line carrying one object. */
  function EncodeLine(members: seq<(string, Value)>): string
  {
    Encode(Obj(members))
  }

  /**
   * A key's value as a key/value store built from the object holds it: the
   * last member with that key wins, and a null value counts as absent.
   */
  function Get(members: seq<(string, Value)>, key: string): (r: Option<Value>)
    ensures r.Some? ==> r.value != Null && (key, r.value) in members
    ensures (forall k :: 0 <= k < |members| ==> members[k].0 != key) ==> r == None
  {
    if |members| == 0 then None
    else if members[|members| - 1].0 == key then
      if members[|members| - 1].1 == Null then None else Some(members[|members| - 1].1)
    else
      Get(members[..|members| - 1], key)
  }

  /**
   * The last member with the key decides: its value when it is not null,
   * none when it is.
   */
  lemma {:induction false} GetLast(members: seq<(string, Value)>, key: string, k: nat)
    requires k < |members| && members[k].0 == key
    requires forall j :: k < j < |members| ==> members[j].0 != key
    ensures Get(members, key) == if members[k].1 == Null then None else Some(members[k].1)
  {
    if k < |members| - 1 {
      var front := members[..|members| - 1];
      assert front[k] == members[k];
      GetLast(front, key, k);
    }
  }

  /** A character that a string literal carries as itself. */
  predicate IsPlain(c: char) { c >= ' ' && c != '"' && c != '\\' }

  /** A string of plain characters is encoded between quotes, unchanged. */
  lemma {:induction false} EncodePlainString(s: string)
    requires forall i :: 0 <= i < |s| ==> IsPlain(s[i])
    ensures EncodeString(s) == "\"" + s + "\""
  {
    PlainEscape(s);
  }

  lemma {:induction false} PlainEscape(s: string)
    requires forall i :: 0 <= i < |s| ==> IsPlain(s[i])
    ensures Escape(s) == s
  {
    if |s| > 0 {
      PlainEscape(s[1..]);
      assert s == [s[0]] + s[1..];
    }
  }

  lemma EncodeItemsPair(a: Value, b: Value)
    ensures EncodeItems([a, b]) == Encode(a) + "," + Encode(b)
  {
    assert [a, b][1..] == [b];
  }

  lemma EncodeMembersPair(a: (string, Value), b: (string, Value))
    ensures EncodeMembers([a, b]) == EncodeMember(a) + "," + EncodeMember(b)
  {
    assert [a, b][1..] == [b];
  }

  lemma EncodeMembersTriple(a: (string, Value), b: (string, Value), c: (string, Value))
    ensures EncodeMembers([a, b, c]) == EncodeMember(a) + "," + EncodeMember(b) + "," + EncodeMember(c)
  {
    assert [a, b, c][1..] == [b, c];
    EncodeMembersPair(b, c);
  }

  // ---------------------------------------------------------------------
  // Round trip
  // ---------------------------------------------------------------------

  predicate NoDigitStart(rest: string) { |rest| == 0 || !IsDigit(rest[0]) }

  /** The first character of an encoding opens a value: never a blank or a closing bracket. */
  lemma EncodeStart(v: Value)
    ensures |Encode(v)| > 0
    ensures !IsSpace(Encode(v)[0]) && Encode(v)[0] != ']' && Encode(v)[0] != '}'
  {
    match v
    case Int(i) =>
      if i < 0 {
      } else {
        assert IsDigit(NatToDecimal(i)[0]);
      }
    case _ =>
  }

  lemma {:induction false} DigitSpanOfDecimal(n: nat, rest: string)
    requires NoDigitStart(rest)
    ensures DigitSpan(NatToDecimal(n) + rest) == |NatToDecimal(n)|
  {
    var d := NatToDecimal(n);
    DigitSpanPrefix(d, rest);
  }

  lemma {:induction false} DigitSpanPrefix(d: string, rest: string)
    requires AllDigits(d) && NoDigitStart(rest)
    ensures DigitSpan(d + rest) == |d|
    decreases |d|
  {
    if |d| == 0 {
      assert d + rest == rest;
    } else {
      assert (d + rest)[1..] == d[1..] + rest;
      DigitSpanPrefix(d[1..], rest);
    }
  }

  lemma ParseNatRoundTrip(m: nat, rest: string)
    requires NoDigitStart(rest)
    ensures ParseInt(NatToDecimal(m) + rest) == Ok((m, rest))
  {
    var d := NatToDecimal(m);
    var s := d + rest;
    assert s[0] == d[0];
    DigitSpanOfDecimal(m, rest);
    assert s[..|d|] == d;
    assert s[|d|..] == rest;
    DecimalRoundTrip(m);
  }

  lemma ParseNegRoundTrip(m: nat, rest: string)
    requires m > 0 && NoDigitStart(rest)
    ensures ParseInt("-" + NatToDecimal(m) + rest) == Ok((-(m as int), rest))
  {
    var d := NatToDecimal(m);
    var s := "-" + d + rest;
    assert s[1..] == d + rest;
    DigitSpanOfDecimal(m, rest);
    assert (d + rest)[..|d|] == d;
    assert (d + rest)[|d|..] == rest;
    DecimalRoundTrip(m);
  }

  lemma ParseIntRoundTrip(i: int, rest: string)
    requires NoDigitStart(rest)
    ensures ParseInt(IntToDecimal(i) + rest) == Ok((i, rest))
  {
    var x := IntToDecimal(i) + rest;
    if i < 0 {
      var m: nat := -i;
      assert x == "-" + NatToDecimal(m) + rest;
      ParseNegRoundTrip(m, rest);
      assert -(m as int) == i;
    } else {
      var m: nat := i;
      assert x == NatToDecimal(m) + rest;
      ParseNatRoundTrip(m, rest);
    }
  }

  lemma Regrouped4(a: string, b: string, c: string, d: string)
    ensures a + b + c + d == a + (b + c + d)
  {
  }

  lemma DropFirst(a: string, b: string)
    requires |a| > 0
    ensures (a + b)[1..] == a[1..] + b
  {
  }

  lemma DropSeparator(sep: char, a: string, b: string)
    ensures |[sep] + a + b| > 0 && ([sep] + a + b)[0] == sep && ([sep] + a + b)[1..] == a + b
  {
    assert ([sep] + a + b)[1..] == a + b;
  }

  /** A sequence is its first element followed by the rest. */
  lemma HeadTail<T>(acc: seq<T>, xs: seq<T>)
    requires |xs| > 0
    ensures acc + [xs[0]] + xs[1..] == acc + xs
  {
    assert [xs[0]] + xs[1..] == xs;
    assert acc + [xs[0]] + xs[1..] == acc + ([xs[0]] + xs[1..]);
  }

  /** A control character without a short escape is read back from its \u00XX form. */
  lemma UnicodeEscapeRoundTrip(c: char, tail: string, acc: string)
    requires c < ' ' && c != '\n' && c != '\r' && c != '\t' && c != 8 as char && c != 12 as char
    ensures ParseStringBody(EscapeChar(c) + tail, acc) == ParseStringBody(tail, acc + [c])
  {
    var hi := c as int / 16;
    var lo := c as int % 16;
    var e := ['\\', 'u', '0', '0', HexDigit(hi), HexDigit(lo)];
    assert EscapeChar(c) == e;
    var s := e + tail;
    HexDigitValue(hi);
    HexDigitValue(lo);
    assert s[0] == '\\' && s[1] == 'u' && s[2] == '0' && s[3] == '0' && s[4] == HexDigit(hi) && s[5] == HexDigit(lo);
    assert s[6..] == tail;
  }

  lemma HexDigitValue(d: nat)
    requires d < 16
    ensures IsHex(HexDigit(d)) && HexValue(HexDigit(d)) == d
  {
  }

  lemma EscapeCharRoundTrip(c: char, tail: string, acc: string)
    ensures ParseStringBody(EscapeChar(c) + tail, acc) == ParseStringBody(tail, acc + [c])
  {
    var s := EscapeChar(c) + tail;
    if c == '"' || c == '\\' || c == '\n' || c == '\r' || c == '\t' || c == 8 as char || c == 12 as char {
      assert s[2..] == tail;
    } else if c < ' ' {
      UnicodeEscapeRoundTrip(c, tail, acc);
    } else {
      assert s[1..] == tail;
    }
  }

  lemma {:induction false} EscapeRoundTrip(str: string, rest: string, acc: string)
    ensures ParseStringBody(Escape(str) + "\"" + rest, acc) == Ok((acc + str, rest))
    decreases |str|
  {
    if |str| == 0 {
      assert Escape(str) + "\"" + rest == "\"" + rest;
      assert acc + str == acc;
    } else {
      var tail := Escape(str[1..]) + "\"" + rest;
      Regrouped4(EscapeChar(str[0]), Escape(str[1..]), "\"", rest);
      EscapeCharRoundTrip(str[0], tail, acc);
      EscapeRoundTrip(str[1..], rest, acc + [str[0]]);
      HeadTail(acc, str);
    }
  }

  lemma StringRoundTrip(str: string, rest: string)
    ensures ParseStringBody(EncodeString(str)[1..] + rest, "") == Ok((str, rest))
  {
    assert EncodeString(str)[1..] + rest == Escape(str) + "\"" + rest;
    EscapeRoundTrip(str, rest, "");
    assert "" + str == str;
  }

  /** Parsing an encoding gives the value back and leaves what followed it. */
  lemma {:induction false} ValueRoundTrip(v: Value, rest: string)
    requires NoDigitStart(rest)
    ensures ParseValue(Encode(v) + rest) == Ok((v, rest))
    decreases v, 4
  {
    match v
    case Null => KeywordRoundTrip("null", v, rest);
    case Bool(b) => KeywordRoundTrip(if b then "true" else "false", v, rest);
    case Int(i) => IntValueRoundTrip(i, rest);
    case Str(str) => StrValueRoundTrip(str, rest);
    case Arr(items) => ArrValueRoundTrip(items, rest);
    case Obj(members) => ObjValueRoundTrip(members, rest);
  }

  lemma KeywordRoundTrip(word: string, v: Value, rest: string)
    requires v.Null? || v.Bool?
    requires word == Encode(v)
    ensures ParseValue(word + rest) == Ok((v, rest))
  {
    var s := word + rest;
    EncodeStart(v);
    assert SkipSpace(s) == s;
    assert s[..|word|] == word && s[|word|..] == rest;
  }

  lemma IntValueRoundTrip(i: int, rest: string)
    requires NoDigitStart(rest)
    ensures ParseValue(Encode(Int(i)) + rest) == Ok((Int(i), rest))
  {
    var s := Encode(Int(i)) + rest;
    EncodeStart(Int(i));
    assert SkipSpace(s) == s;
    assert s[0] == '-' || IsDigit(s[0]) by {
      if i >= 0 { assert IsDigit(NatToDecimal(i)[0]); }
    }
    ParseIntRoundTrip(i, rest);
  }

  lemma StrValueRoundTrip(str: string, rest: string)
    ensures ParseValue(Encode(Str(str)) + rest) == Ok((Str(str), rest))
  {
    var s := Encode(Str(str)) + rest;
    EncodeStart(Str(str));
    assert SkipSpace(s) == s;
    assert s[1..] == EncodeString(str)[1..] + rest;
    StringRoundTrip(str, rest);
  }

  lemma ArrValueRoundTrip(items: seq<Value>, rest: string)
    ensures ParseValue(Encode(Arr(items)) + rest) == Ok((Arr(items), rest))
    decreases items, 1
  {
    var s := Encode(Arr(items)) + rest;
    EncodeStart(Arr(items));
    assert SkipSpace(s) == s;
    if |items| == 0 {
      assert s[1..] == "]" + rest;
    } else {
      assert s[1..] == EncodeItems(items) + "]" + rest;
      ItemsStart(items);
      ItemsRoundTrip(items, [], rest);
      assert [] + items == items;
    }
  }

  lemma ObjValueRoundTrip(members: seq<(string, Value)>, rest: string)
    ensures ParseValue(Encode(Obj(members)) + rest) == Ok((Obj(members), rest))
    decreases members, 4
  {
    var s := Encode(Obj(members)) + rest;
    EncodeStart(Obj(members));
    assert SkipSpace(s) == s;
    ObjectRoundTrip(members, rest);
  }

  lemma ItemsStart(items: seq<Value>)
    requires |items| > 0
    ensures |EncodeItems(items)| > 0
    ensures !IsSpace(EncodeItems(items)[0]) && EncodeItems(items)[0] != ']'
  {
    EncodeStart(items[0]);
    assert EncodeItems(items)[0] == Encode(items[0])[0];
  }

  /** Reading one item: its value, and then a ',' to go on or a ']' to stop. */
  lemma ParseItemsOne(s: string, acc: seq<Value>, v: Value, tail: string)
    requires ParseValue(s) == Ok((v, tail))
    requires |tail| > 0 && (tail[0] == ',' || tail[0] == ']')
    ensures ParseItems(s, acc) == if tail[0] == ',' then ParseItems(tail[1..], acc + [v]) else Ok((Arr(acc + [v]), tail[1..]))
  {
    assert SkipSpace(tail) == tail;
  }

  lemma {:induction false} ItemsRoundTrip(items: seq<Value>, acc: seq<Value>, rest: string)
    requires |items| > 0
    ensures ParseItems(EncodeItems(items) + "]" + rest, acc) == Ok((Arr(acc + items), rest))
    decreases items, 0
  {
    var s := EncodeItems(items) + "]" + rest;
    if |items| == 1 {
      Regrouped(Encode(items[0]), "]", rest);
      ValueRoundTrip(items[0], "]" + rest);
      ParseItemsOne(s, acc, items[0], "]" + rest);
      assert ("]" + rest)[1..] == rest;
      assert acc + [items[0]] == acc + items;
    } else {
      var tail := "," + EncodeItems(items[1..]) + "]" + rest;
      AfterSeparator(Encode(items[0]), ',', EncodeItems(items[1..]), "]", rest);
      ValueRoundTrip(items[0], tail);
      ParseItemsOne(s, acc, items[0], tail);
      ItemsRoundTrip(items[1..], acc + [items[0]], rest);
      HeadTail(acc, items);
    }
  }

  lemma ObjectRoundTrip(members: seq<(string, Value)>, rest: string)
    ensures ParseObject(Encode(Obj(members)) + rest) == Ok((members, rest))
    decreases members, 3
  {
    var s := Encode(Obj(members)) + rest;
    if |members| == 0 {
      assert s[1..] == "}" + rest;
    } else {
      assert s[1..] == EncodeMembers(members) + "}" + rest;
      assert s[1..][0] == '"';
      MembersRoundTrip(members, [], rest);
      assert [] + members == members;
    }
  }

  lemma MemberValueRoundTrip(m: (string, Value), tail: string)
    requires NoDigitStart(tail)
    ensures ParseValue(Encode(m.1) + tail) == Ok((m.1, tail))
    decreases m, 0
  {
    ValueRoundTrip(m.1, tail);
  }

  /** Reading one member: its key, the colon, its value, and then a ',' to go on or a '}' to stop. */
  lemma ParseMembersOne(s: string, acc: seq<(string, Value)>, key: string, u: string, v: Value, tail: string)
    requires |s| > 0 && s[0] == '"' && ParseStringBody(s[1..], "") == Ok((key, u))
    requires |u| > 0 && u[0] == ':' && ParseValue(u[1..]) == Ok((v, tail))
    requires |tail| > 0 && (tail[0] == ',' || tail[0] == '}')
    ensures ParseMembers(s, acc) ==
              if tail[0] == ',' then ParseMembers(tail[1..], acc + [(key, v)]) else Ok((acc + [(key, v)], tail[1..]))
  {
    assert SkipSpace(s) == s && SkipSpace(u) == u && SkipSpace(tail) == tail;
  }

  /** One encoded member followed by ',' or '}' is read as that member. */
  lemma MemberStep(m: (string, Value), tail: string, acc: seq<(string, Value)>)
    requires |tail| > 0 && (tail[0] == ',' || tail[0] == '}')
    ensures ParseMembers(EncodeMember(m) + tail, acc) ==
              if tail[0] == ',' then ParseMembers(tail[1..], acc + [m]) else Ok((acc + [m], tail[1..]))
    decreases m, 1
  {
    var s := EncodeMember(m) + tail;
    var u := ":" + Encode(m.1) + tail;
    Regrouped4(EncodeString(m.0), ":", Encode(m.1), tail);
    DropFirst(EncodeString(m.0), u);
    StringRoundTrip(m.0, u);
    DropSeparator(':', Encode(m.1), tail);
    MemberValueRoundTrip(m, tail);
    ParseMembersOne(s, acc, m.0, u, m.1, tail);
    assert (m.0, m.1) == m;
  }

  lemma Regrouped(a: string, b: string, c: string)
    ensures a + b + c == a + (b + c)
  {
  }

  /** The text after a separator: the separator is dropped and the rest regrouped. */
  lemma AfterSeparator(head: string, sep: char, body: string, close: string, rest: string)
    ensures head + [sep] + body + close + rest == head + ([sep] + body + close + rest)
    ensures ([sep] + body + close + rest)[1..] == body + close + rest
  {
    assert head + [sep] + body + close + rest == head + ([sep] + body + close + rest);
    assert ([sep] + body + close + rest)[1..] == body + close + rest;
  }

  lemma {:induction false} MembersRoundTrip(members: seq<(string, Value)>, acc: seq<(string, Value)>, rest: string)
    requires |members| > 0
    ensures ParseMembers(EncodeMembers(members) + "}" + rest, acc) == Ok((acc + members, rest))
    decreases members, 2
  {
    if |members| == 1 {
      Regrouped(EncodeMember(members[0]), "}", rest);
      MemberStep(members[0], "}" + rest, acc);
      assert acc + [members[0]] == acc + members;
    } else {
      var tail := "," + EncodeMembers(members[1..]) + "}" + rest;
      AfterSeparator(EncodeMember(members[0]), ',', EncodeMembers(members[1..]), "}", rest);
      MemberStep(members[0], tail, acc);
      MembersRoundTrip(members[1..], acc + [members[0]], rest);
      assert acc + [members[0]] + members[1..] == acc + members;
    }
  }

  /** Decoding the line of an object gives its members back, in order. */
  lemma DecodeEncodeLine(members: seq<(string, Value)>)
    ensures DecodeLine(EncodeLine(members)) == Ok(members)
  {
    var line := EncodeLine(members);
    assert SkipSpace(line) == line;
    ObjectRoundTrip(members, "");
    assert line + "" == line;
  }

  /** Encoding is injective: distinct values never share a text. */
  lemma EncodeInjective(a: Value, b: Value)
    requires Encode(a) == Encode(b)
    ensures a == b
  {
    ValueRoundTrip(a, "");
    ValueRoundTrip(b, "");
    assert Encode(a) + "" == Encode(a) && Encode(b) + "" == Encode(b);
  }
}
