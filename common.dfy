// Shared vocabulary of the model: the error kinds the core raises and the
// few text operations (decimal and hexadecimal rendering, joining, string
// order) that several components use.

module Errors {

  /**
   * The error kinds the modelled code raises or receives. The kinds of
   * pgBackRest's error table that the model does not name are OtherError,
   * known by their code.
   */
  datatype ErrorType =
    | AssertError
    | FormatError
    | ProtocolError
    | FileReadError
    | ArchiveDuplicateError
    | HostInvalidError
    | ParamInvalidError
    | JsonFormatError
    | ExecuteError
    | RepoInvalidError
    | UnknownError
    | OtherError(code: int)

  /** The codes of the error table: from AssertError's 25 to UnknownError's 125. */
  predicate InErrorTable(code: int)
  {
    25 <= code <= 125
  }

  /** The codes of the kinds named above. */
  predicate NamedCode(code: int)
  {
    code in {25, 29, 39, 42, 45, 72, 96, 99, 102, 103, 125}
  }

  /** One kind per code: an OtherError holds a code of the table that no named kind owns. */
  predicate Canonical(t: ErrorType)
  {
    t.OtherError? ==> InErrorTable(t.code) && !NamedCode(t.code)
  }

  /** An error kind as the code handles it. */
  type Kind = t: ErrorType | Canonical(t) witness AssertError

  /** The numeric code an error kind travels as on the wire and in status files. */
  function Code(t: Kind): (c: nat)
    ensures InErrorTable(c)
    ensures NamedCode(c) <==> !t.OtherError?
  {
    match t
    case AssertError => 25
    case FormatError => 29
    case ProtocolError => 39
    case FileReadError => 42
    case ArchiveDuplicateError => 45
    case HostInvalidError => 72
    case ParamInvalidError => 96
    case JsonFormatError => 99
    case ExecuteError => 102
    case RepoInvalidError => 103
    case UnknownError => 125
    case OtherError(c) => c
  }

  /**
   * The kind of a code received from a peer: the kind of the table that
   * owns the code, so that the code survives; a code outside the table
   * becomes UnknownError.
   */
  function TypeFromCode(code: int): (t: Kind)
    ensures InErrorTable(code) ==> Code(t) == code
    ensures !InErrorTable(code) ==> t == UnknownError
  {
    if code == 25 then AssertError
    else if code == 29 then FormatError
    else if code == 39 then ProtocolError
    else if code == 42 then FileReadError
    else if code == 45 then ArchiveDuplicateError
    else if code == 72 then HostInvalidError
    else if code == 96 then ParamInvalidError
    else if code == 99 then JsonFormatError
    else if code == 102 then ExecuteError
    else if code == 103 then RepoInvalidError
    else if code == 125 then UnknownError
    else if InErrorTable(code) then OtherError(code)
    else UnknownError
  }

  /** Every kind survives the trip through its code. */
  lemma TypeFromCodeOfCode(t: Kind)
    ensures TypeFromCode(Code(t)) == t
  {
  }

  /** Distinct kinds have distinct codes. */
  lemma CodeInjective(a: Kind, b: Kind)
    requires Code(a) == Code(b)
    ensures a == b
  {
    TypeFromCodeOfCode(a);
    TypeFromCodeOfCode(b);
  }

  datatype Error = Error(errType: Kind, message: string)

  datatype Option<T> = None | Some(value: T)

  datatype Result<T> = Ok(value: T) | Fail(error: Error)
  {
    predicate IsFailure() { Fail? }
  }

  /** The outcome of an operation that returns nothing but may raise. */
  datatype Outcome = Pass | Raise(error: Error)
}

module Text {

  // ---------------------------------------------------------------------
  // Decimal rendering
  // ---------------------------------------------------------------------

  predicate IsDigit(c: char) { '0' <= c <= '9' }

  predicate AllDigits(s: string) { forall i :: 0 <= i < |s| ==> IsDigit(s[i]) }

  function DigitChar(d: nat): (c: char)
    requires d < 10
    ensures IsDigit(c)
  {
    ['0', '1', '2', '3', '4', '5', '6', '7', '8', '9'][d]
  }

  function DigitValue(c: char): (d: nat)
    requires IsDigit(c)
    ensures d < 10
  {
    (c as int - '0' as int) as nat
  }

  lemma DigitValueOfChar(d: nat)
    requires d < 10
    ensures DigitValue(DigitChar(d)) == d
  {
  }

  // ---------------------------------------------------------------------
  // Hexadecimal digits (either case)
  // ---------------------------------------------------------------------

  predicate IsHex(c: char) { '0' <= c <= '9' || 'a' <= c <= 'f' || 'A' <= c <= 'F' }

  function HexValue(c: char): (d: nat)
    requires IsHex(c)
    ensures d < 16
  {
    if c <= '9' then (c as int - '0' as int) as nat
    else if c <= 'F' then (c as int - 'A' as int + 10) as nat
    else (c as int - 'a' as int + 10) as nat
  }

  /** The value of a string of decimal digits, most significant first. */
  function DecimalValue(s: string): nat
    requires AllDigits(s)
  {
    if |s| == 0 then 0 else DecimalValue(s[..|s| - 1]) * 10 + DigitValue(s[|s| - 1])
  }

  /** The shortest decimal text of n, as "%u" prints it. */
  function NatToDecimal(n: nat): (s: string)
    ensures |s| >= 1 && AllDigits(s)
    ensures |s| > 1 ==> s[0] != '0'
  {
    if n < 10 then [DigitChar(n)] else NatToDecimal(n / 10) + [DigitChar(n % 10)]
  }

  /** Reading the decimal text back gives the number. */
  lemma {:induction false} DecimalRoundTrip(n: nat)
    ensures DecimalValue(NatToDecimal(n)) == n
  {
    var s := NatToDecimal(n);
    if n < 10 {
      DigitValueOfChar(n);
      assert s[..0] == [];
    } else {
      DecimalRoundTrip(n / 10);
      assert s[..|s| - 1] == NatToDecimal(n / 10);
      DigitValueOfChar(n % 10);
    }
  }

  /** Different numbers render differently. */
  lemma NatToDecimalInjective(a: nat, b: nat)
    requires NatToDecimal(a) == NatToDecimal(b)
    ensures a == b
  {
    DecimalRoundTrip(a);
    DecimalRoundTrip(b);
  }

  /** Signed decimal text, as "%d" prints it. */
  function IntToDecimal(i: int): (s: string)
    ensures |s| >= 1
  {
    if i < 0 then "-" + NatToDecimal(-i) else NatToDecimal(i)
  }

  // ---------------------------------------------------------------------
  // Joining
  // ---------------------------------------------------------------------

  /** Concatenation regroups; stated for any element type so that the solver does not look inside the elements. */
  lemma ConcatAssoc<T>(a: seq<T>, b: seq<T>, c: seq<T>)
    ensures a + (b + c) == (a + b) + c
  {
  }

  /** The items in order with sep between consecutive items. */
  function Join(items: seq<string>, sep: string): (r: string)
    ensures |items| == 0 ==> r == ""
    ensures |items| == 1 ==> r == items[0]
  {
    if |items| == 0 then ""
    else if |items| == 1 then items[0]
    else items[0] + sep + Join(items[1..], sep)
  }

  /** Appending an item to a non-empty list appends sep and the item to the join. */
  lemma {:induction false} JoinSnoc(items: seq<string>, x: string, sep: string)
    requires |items| > 0
    ensures Join(items + [x], sep) == Join(items, sep) + sep + x
  {
    if |items| == 1 {
      assert (items + [x])[1..] == [x];
    } else {
      assert (items + [x])[1..] == items[1..] + [x];
      JoinSnoc(items[1..], x, sep);
    }
  }

  /** The index of the first c in s, or |s| when s holds none. */
  function FirstIndex<T(==)>(s: seq<T>, c: T): (i: nat)
    ensures i <= |s|
    ensures i < |s| ==> s[i] == c
    ensures forall k :: 0 <= k < i ==> s[k] != c
  {
    if |s| == 0 then 0 else if s[0] == c then 0 else 1 + FirstIndex(s[1..], c)
  }

  /** The parts of s between occurrences of c; the empty string has one empty part. */
  function Split(s: string, c: char): (parts: seq<string>)
    ensures |parts| >= 1
    ensures forall k :: 0 <= k < |parts| ==> c !in parts[k]
    decreases |s|
  {
    var i := FirstIndex(s, c);
    if i == |s| then [s] else [s[..i]] + Split(s[i + 1..], c)
  }

  /** Splitting a join on a separator no item contains gives back the items. */
  lemma {:induction false} SplitJoin(items: seq<string>, c: char)
    requires |items| >= 1
    requires forall k :: 0 <= k < |items| ==> c !in items[k]
    ensures Split(Join(items, [c]), c) == items
  {
    var s := Join(items, [c]);
    if |items| == 1 {
      assert FirstIndex(s, c) == |s|;
    } else {
      var x := items[0];
      assert s == x + [c] + Join(items[1..], [c]);
      assert FirstIndex(s, c) == |x| by {
        assert c !in items[0];
        assert s == x + ([c] + Join(items[1..], [c]));
        FirstIndexPrefix(x, [c] + Join(items[1..], [c]), c);
      }
      assert s[..|x|] == x;
      assert s[|x| + 1..] == Join(items[1..], [c]);
      SplitJoin(items[1..], c);
    }
  }

  lemma {:induction false} FirstIndexPrefix(x: string, rest: string, c: char)
    requires c !in x
    requires |rest| > 0 && rest[0] == c
    ensures FirstIndex(x + rest, c) == |x|
  {
    if |x| > 0 {
      assert (x + rest)[1..] == x[1..] + rest;
      FirstIndexPrefix(x[1..], rest, c);
    } else {
      assert x + rest == rest;
    }
  }

  // ---------------------------------------------------------------------
  // String order (byte-wise comparison, as strcmp)
  // ---------------------------------------------------------------------

  /** a sorts strictly before b: the first difference is smaller, or a is a proper prefix. */
  predicate Less(a: string, b: string)
    decreases |a|
  {
    if |a| == 0 then |b| > 0
    else if |b| == 0 then false
    else if a[0] != b[0] then a[0] < b[0]
    else Less(a[1..], b[1..])
  }

  predicate LessEq(a: string, b: string) { a == b || Less(a, b) }

  lemma {:induction false} LessIrreflexive(a: string)
    ensures !Less(a, a)
  {
    if |a| > 0 { LessIrreflexive(a[1..]); }
  }

  lemma {:induction false} LessTransitive(a: string, b: string, c: string)
    requires Less(a, b) && Less(b, c)
    ensures Less(a, c)
    decreases |a|
  {
    if |a| > 0 && |b| > 0 && |c| > 0 && a[0] == b[0] && b[0] == c[0] {
      LessTransitive(a[1..], b[1..], c[1..]);
    }
  }

  lemma {:induction false} LessTotal(a: string, b: string)
    ensures Less(a, b) || a == b || Less(b, a)
    decreases |a|
  {
    if |a| > 0 && |b| > 0 && a[0] == b[0] {
      LessTotal(a[1..], b[1..]);
      if a[1..] == b[1..] {
        assert a == [a[0]] + a[1..] && b == [b[0]] + b[1..];
      }
    }
  }

  lemma LessAsymmetric(a: string, b: string)
    requires Less(a, b)
    ensures !Less(b, a)
  {
    if Less(b, a) {
      LessTransitive(a, b, a);
      LessIrreflexive(a);
    }
  }
}
