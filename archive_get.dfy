// The WAL queue of the asynchronous archive-get: segment names and their
// successor, the range of segments the queue should hold, how long the
// queue is, which segments still have to be fetched, which files the spool
// keeps, and the text of the status files the command leaves for each
// segment.

module ArchiveGet {
  import opened Errors
  import opened Text
  import opened StringLists

  /** 2^32: one more than the largest unsigned 32-bit value. */
  const Span: nat := 0x1_0000_0000

  /** The first PostgreSQL version (9.3) that uses segment FF of each log. */
  const PgVersion93: nat := 90300

  // ---------------------------------------------------------------------
  // Fixed-width upper-case hexadecimal
  // ---------------------------------------------------------------------

  predicate IsUpperHex(c: char) { IsHex(c) && !('a' <= c <= 'f') }

  function UpperHexDigit(d: nat): (c: char)
    requires d < 16
    ensures IsUpperHex(c)
  {
    if d < 10 then ('0' as int + d) as char else ('A' as int + d - 10) as char
  }

  /** The value of one digit; a character that is not a hexadecimal digit counts as 0. */
  function DigitOf(c: char): (d: nat)
    ensures d < 16
  {
    if IsHex(c) then HexValue(c) else 0
  }

  lemma UpperHexDigitValue(d: nat)
    requires d < 16
    ensures DigitOf(UpperHexDigit(d)) == d
  {
  }

  lemma UpperHexValueDigit(c: char)
    requires IsUpperHex(c)
    ensures UpperHexDigit(DigitOf(c)) == c
  {
  }

  function Pow16(w: nat): (p: nat)
    ensures p >= 1
  {
    if w == 0 then 1 else 16 * Pow16(w - 1)
  }

  lemma Pow16Of8()
    ensures Pow16(8) == Span
  {
  }

  /** n without its j lowest hexadecimal digits. */
  function Shift(n: nat, j: nat): nat
  {
    if j == 0 then n else Shift(n / 16, j - 1)
  }

  lemma {:induction false} ShiftStep(n: nat, j: nat)
    ensures Shift(n, j + 1) == Shift(n, j) / 16
  {
    if j > 0 {
      ShiftStep(n / 16, j - 1);
    }
  }

  lemma {:induction false} ShiftBelow(n: nat, j: nat)
    requires n < Pow16(j)
    ensures Shift(n, j) == 0
  {
    if j > 0 {
      ShiftBelow(n / 16, j - 1);
    }
  }

  /** Digit k, counted from the most significant, of n printed as width upper-case digits ("%0<width>X"). */
  function FieldDigit(n: nat, width: nat, k: nat): (c: char)
    requires k < width
    ensures IsUpperHex(c)
  {
    UpperHexDigit(Shift(n, width - 1 - k) % 16)
  }

  /** The value of the hexadecimal digits s[lo..hi], most significant first. */
  function HexNumber(s: string, lo: nat, hi: nat): (n: nat)
    requires lo <= hi <= |s|
    ensures n < Pow16(hi - lo)
    decreases hi
  {
    if hi == lo then 0 else HexNumber(s, lo, hi - 1) * 16 + DigitOf(s[hi - 1])
  }

  /** Reading printed digits back: the first m of the width digits of n are n without its lowest width - m digits. */
  lemma {:induction false} HexNumberOfDigits(n: nat, width: nat, s: string, lo: nat, m: nat)
    requires n < Pow16(width) && m <= width && lo + width <= |s|
    requires forall r :: 0 <= r < width ==> s[lo + r] == FieldDigit(n, width, r)
    ensures HexNumber(s, lo, lo + m) == Shift(n, width - m)
  {
    if m == 0 {
      ShiftBelow(n, width);
    } else {
      HexNumberOfDigits(n, width, s, lo, m - 1);
      assert s[lo + m - 1] == FieldDigit(n, width, m - 1);
      UpperHexDigitValue(Shift(n, width - m) % 16);
      ShiftStep(n, width - m);
    }
  }

  /** Dropping j digits from a number read from digits is reading j digits fewer. */
  lemma {:induction false} ShiftHexNumber(s: string, lo: nat, hi: nat, j: nat)
    requires lo + j <= hi <= |s|
    ensures Shift(HexNumber(s, lo, hi), j) == HexNumber(s, lo, hi - j)
  {
    if j > 0 {
      ShiftHexNumber(s, lo, hi, j - 1);
      ShiftStep(HexNumber(s, lo, hi), j - 1);
    }
  }

  // ---------------------------------------------------------------------
  // Segment names
  // ---------------------------------------------------------------------

  /** A segment: timeline, log id (major) and segment number within the log (minor). */
  datatype Segment = Segment(timeline: nat, major: nat, minor: nat)

  /** Each part fits an unsigned 32-bit value. */
  predicate ValidSegment(w: Segment)
  {
    w.timeline < Span && w.major < Span && w.minor < Span
  }

  /** The part printed in the f-th group of eight digits. */
  function Part(w: Segment, f: nat): nat
  {
    if f == 0 then w.timeline else if f == 1 then w.major else w.minor
  }

  /** 24 hexadecimal digits: 8 for the timeline, 8 for the log id, 8 for the segment. */
  predicate IsSegmentName(s: string)
  {
    |s| == 24 && forall k :: 0 <= k < |s| ==> IsHex(s[k])
  }

  /** A segment name in upper case, as the source prints them. */
  predicate IsCanonicalSegmentName(s: string)
  {
    |s| == 24 && forall k :: 0 <= k < |s| ==> IsUpperHex(s[k])
  }

  /** Character k of the name of w: digit k % 8 of part k / 8. */
  function DigitAt(w: Segment, k: nat): (c: char)
    requires k < 24
    ensures IsUpperHex(c)
  {
    FieldDigit(Part(w, k / 8), 8, k % 8)
  }

  /** The first k characters of the name of w. */
  function NameDigits(w: Segment, k: nat): (s: string)
    requires k <= 24
    ensures |s| == k
  {
    if k == 0 then [] else NameDigits(w, k - 1) + [DigitAt(w, k - 1)]
  }

  lemma {:induction false} NameDigitsAt(w: Segment, k: nat)
    requires k <= 24
    ensures forall i :: 0 <= i < k ==> NameDigits(w, k)[i] == DigitAt(w, i)
  {
    if k > 0 {
      NameDigitsAt(w, k - 1);
    }
  }

  /** The name of a segment, "%08X%08X%08X" of its three parts. */
  function SegmentName(w: Segment): (s: string)
    ensures IsSegmentName(s)
  {
    NameDigitsAt(w, 24);
    NameDigits(w, 24)
  }

  /** The value of the f-th group of eight digits of a name. */
  function PartValue(s: string, f: nat): (n: nat)
    requires IsSegmentName(s) && f < 3
    ensures n < Span
  {
    Pow16Of8();
    HexNumber(s, 8 * f, 8 * f + 8)
  }

  function ParseSegment(s: string): (w: Segment)
    requires IsSegmentName(s)
    ensures ValidSegment(w)
  {
    Segment(PartValue(s, 0), PartValue(s, 1), PartValue(s, 2))
  }

  /** The source prints names in upper case. */
  lemma SegmentNameCanonical(w: Segment)
    ensures IsCanonicalSegmentName(SegmentName(w))
  {
    NameDigitsAt(w, 24);
  }

  /** The digits of part f are its eight digits. */
  lemma PartDigits(w: Segment, f: nat, lo: nat)
    requires f < 3 && lo == 8 * f
    ensures forall r :: 0 <= r < 8 ==> SegmentName(w)[lo + r] == FieldDigit(Part(w, f), 8, r)
  {
    NameDigitsAt(w, 24);
    forall r | 0 <= r < 8
      ensures SegmentName(w)[lo + r] == FieldDigit(Part(w, f), 8, r)
    {
      assert (lo + r) / 8 == f && (lo + r) % 8 == r;
    }
  }

  /** Part f reads back from its eight digits. */
  lemma PartRoundTrip(w: Segment, f: nat, lo: nat)
    requires ValidSegment(w) && f < 3 && lo == 8 * f
    ensures PartValue(SegmentName(w), f) == Part(w, f)
  {
    var n := Part(w, f);
    assert n < Span;
    Pow16Of8();
    PartDigits(w, f, lo);
    HexNumberOfDigits(n, 8, SegmentName(w), lo, 8);
    assert Shift(n, 0) == n;
  }

  /** A segment survives being named and read back. */
  lemma SegmentRoundTrip(w: Segment)
    requires ValidSegment(w)
    ensures ParseSegment(SegmentName(w)) == w
  {
    PartRoundTrip(w, 0, 0);
    PartRoundTrip(w, 1, 8);
    PartRoundTrip(w, 2, 16);
  }

  /** The lowest digit of a number read from digits is the value of the last digit. */
  lemma LowDigit(s: string, lo: nat, hi: nat)
    requires lo < hi <= |s|
    ensures HexNumber(s, lo, hi) % 16 == DigitOf(s[hi - 1])
  {
    var x, d := HexNumber(s, lo, hi - 1), DigitOf(s[hi - 1]);
    assert HexNumber(s, lo, hi) == x * 16 + d;
  }

  /** Part f of a parsed name is read from its f-th group of eight digits. */
  lemma ParsedPart(s: string, f: nat)
    requires IsSegmentName(s) && f < 3
    ensures Part(ParseSegment(s), f) == PartValue(s, f)
  {
  }

  /** Character k of a name is digit r of part f. */
  lemma DigitAtPart(w: Segment, f: nat, r: nat, k: nat)
    requires f < 3 && r < 8 && k == 8 * f + r
    ensures DigitAt(w, k) == FieldDigit(Part(w, f), 8, r)
  {
    assert k / 8 == f && k % 8 == r;
  }

  /** Printing a number read from eight upper-case digits gives back each digit. */
  lemma FieldDigitOfNumber(s: string, lo: nat, r: nat, k: nat)
    requires lo + 8 <= |s| && r < 8 && k == lo + r
    requires IsUpperHex(s[k])
    ensures FieldDigit(HexNumber(s, lo, lo + 8), 8, r) == s[k]
  {
    ShiftHexNumber(s, lo, lo + 8, 7 - r);
    assert lo + 8 - (7 - r) == k + 1;
    LowDigit(s, lo, k + 1);
    UpperHexValueDigit(s[k]);
  }

  /** Printing part f of a parsed name gives back each of its digits. */
  lemma FieldDigitOfPart(s: string, f: nat, r: nat, lo: nat, k: nat)
    requires IsSegmentName(s) && f < 3 && r < 8 && lo == 8 * f && k == lo + r
    requires IsUpperHex(s[k])
    ensures FieldDigit(PartValue(s, f), 8, r) == s[k]
  {
    assert PartValue(s, f) == HexNumber(s, lo, lo + 8);
    FieldDigitOfNumber(s, lo, r, k);
  }

  /** Digit r of part f of a parsed upper-case name is the digit it was read from. */
  lemma DigitRoundTrip(s: string, f: nat, r: nat, lo: nat, k: nat)
    requires IsSegmentName(s) && f < 3 && r < 8 && lo == 8 * f && k == lo + r
    requires IsUpperHex(s[k])
    ensures DigitAt(ParseSegment(s), k) == s[k]
  {
    DigitAtPart(ParseSegment(s), f, r, k);
    ParsedPart(s, f);
    FieldDigitOfPart(s, f, r, lo, k);
  }

  /** An upper-case name survives being read and named again. */
  lemma SegmentNameRoundTrip(s: string)
    requires IsSegmentName(s) && IsCanonicalSegmentName(s)
    ensures SegmentName(ParseSegment(s)) == s
  {
    var w := ParseSegment(s);
    NameDigitsAt(w, 24);
    forall k | 0 <= k < 24
      ensures SegmentName(w)[k] == s[k]
    {
      DigitRoundTrip(s, k / 8, k % 8, 8 * (k / 8), k);
    }
  }

  // ---------------------------------------------------------------------
  // Successor
  // ---------------------------------------------------------------------

  /** The source accepts segment sizes that divide 2^32 (UINT32_MAX % size == size - 1). */
  predicate ValidSegmentSize(size: nat)
  {
    size > 0 && (Span - 1) % size == size - 1
  }

  /**
   * The largest segment number within a log of segments of the given size.
   * The stepping functions below take this number rather than the size, so
   * that the division is made once, where the size comes in.
   */
  function MaxMinor(size: nat): (last: nat)
    requires size > 0
    ensures last < Span
  {
    (Span - 1) / size
  }

  /**
   * The segment after w, in logs whose last segment number is last: the
   * segment number goes up by one (as an unsigned 32-bit value) and a number
   * past the last of the log starts the next log at 0; before PostgreSQL
   * 9.3 segment FF is never used, so it too starts the next log. The log id
   * wraps as an unsigned 32-bit value.
   */
  function NextSegment(w: Segment, last: nat, pgVersion: nat): (r: Segment)
    requires ValidSegment(w) && last < Span
    ensures ValidSegment(r) && r.timeline == w.timeline
    ensures r.minor <= last
    ensures pgVersion < PgVersion93 ==> r.minor != 0xFF
  {
    var minor := (w.minor + 1) % Span;
    var step := if minor > last then Segment(w.timeline, (w.major + 1) % Span, 0) else Segment(w.timeline, w.major, minor);
    if pgVersion < PgVersion93 && step.minor == 0xFF then Segment(w.timeline, (step.major + 1) % Span, 0)
    else step
  }

  /** The name of the segment after the named one. */
  function NextName(name: string, last: nat, pgVersion: nat): (r: string)
    requires IsSegmentName(name) && last < Span
    ensures IsSegmentName(r)
  {
    SegmentName(NextSegment(ParseSegment(name), last, pgVersion))
  }

  /** The successor of a segment of WAL segments of the given size, as the source computes it from the size. */
  function NextSegmentOfSize(w: Segment, size: nat, pgVersion: nat): (r: Segment)
    requires ValidSegment(w) && ValidSegmentSize(size)
    ensures r == NextSegment(w, MaxMinor(size), pgVersion)
  {
    NextSegment(w, MaxMinor(size), pgVersion)
  }

  /** The position of a segment in one count across logs whose last segment number is last. */
  function SegmentNumber(w: Segment, last: nat): nat
  {
    w.major * (last + 1) + w.minor
  }

  /**
   * Where no segment is skipped (PostgreSQL 9.3 on, or logs shorter than FF
   * segments), the successor is the next segment in one count across logs,
   * short of the last log id, where the log id wraps.
   */
  lemma {:induction false} NextIsSuccessor(w: Segment, last: nat, pgVersion: nat)
    requires ValidSegment(w) && last < Span - 1
    requires w.minor <= last && w.major < Span - 1
    requires pgVersion >= PgVersion93 || last < 0xFF
    ensures SegmentNumber(NextSegment(w, last, pgVersion), last) == SegmentNumber(w, last) + 1
  {
    var r := NextSegment(w, last, pgVersion);
    if w.minor < last {
      assert r == Segment(w.timeline, w.major, w.minor + 1);
    } else {
      assert r == Segment(w.timeline, w.major + 1, 0);
      assert (w.major + 1) * (last + 1) == w.major * (last + 1) + last + 1;
    }
  }

  /** Segments of two bytes or more leave logs with fewer than 2^32 - 1 segment numbers, as NextIsSuccessor asks. */
  lemma MaxMinorBelow(size: nat)
    requires size >= 2
    ensures MaxMinor(size) < Span - 1
  {
    assert (Span - 1) / size <= (Span - 1) / 2;
  }

  /** Before PostgreSQL 9.3, with logs of at least FF segments, segment FE is followed by segment 0 of the next log. */
  lemma SkipsSegmentFF(w: Segment, last: nat, pgVersion: nat)
    requires ValidSegment(w) && last < Span
    requires pgVersion < PgVersion93 && last >= 0xFF && w.minor == 0xFE
    ensures NextSegment(w, last, pgVersion) == Segment(w.timeline, (w.major + 1) % Span, 0)
  {
  }

  /** Everywhere else the older versions count like the newer ones. */
  lemma OldVersionsAgreeElsewhere(w: Segment, last: nat, oldVersion: nat, newVersion: nat)
    requires ValidSegment(w) && last < Span
    requires oldVersion < PgVersion93 <= newVersion
    requires NextSegment(w, last, newVersion).minor != 0xFF
    ensures NextSegment(w, last, oldVersion) == NextSegment(w, last, newVersion)
  {
  }

  const Size16MB: nat := 16 * 1024 * 1024
  const Size1MB: nat := 1024 * 1024

  /** 16MB segments make logs of segments 00 to FF; 1MB segments, of segments 000 to FFF. */
  lemma MaxMinorExamples()
    ensures ValidSegmentSize(Size16MB) && MaxMinor(Size16MB) == 0xFF
    ensures ValidSegmentSize(Size1MB) && MaxMinor(Size1MB) == 0xFFF
  {
  }

  /** With 16MB segments before 9.3, segment 1/FE is followed by 2/00: FF is skipped. */
  lemma NextOf16MBBefore93()
    ensures NextSegmentOfSize(Segment(1, 1, 0xFE), Size16MB, 90200) == Segment(1, 2, 0)
    ensures NextSegmentOfSize(Segment(1, 2, 0), Size16MB, 90200) == Segment(1, 2, 1)
  {
    MaxMinorExamples();
  }

  /** With 16MB segments from 9.3 on, segment FF is used. */
  lemma NextOf16MBAfter93()
    ensures NextSegmentOfSize(Segment(1, 1, 0xFE), Size16MB, 110000) == Segment(1, 1, 0xFF)
    ensures NextSegmentOfSize(Segment(1, 1, 0xFF), Size16MB, 110000) == Segment(1, 2, 0)
  {
    MaxMinorExamples();
  }

  /** With 1MB segments from 9.3 on, segment numbers run to FFF: A/FFD, A/FFE, A/FFF, B/000. */
  lemma NextOf1MBAfter93()
    ensures NextSegmentOfSize(Segment(1, 0xA, 0xFFD), Size1MB, 110000) == Segment(1, 0xA, 0xFFE)
    ensures NextSegmentOfSize(Segment(1, 0xA, 0xFFE), Size1MB, 110000) == Segment(1, 0xA, 0xFFF)
    ensures NextSegmentOfSize(Segment(1, 0xA, 0xFFF), Size1MB, 110000) == Segment(1, 0xB, 0)
    ensures NextSegmentOfSize(Segment(1, 0xB, 0), Size1MB, 110000) == Segment(1, 0xB, 1)
    ensures NextSegmentOfSize(Segment(1, 0xB, 1), Size1MB, 110000) == Segment(1, 0xB, 2)
  {
    MaxMinorExamples();
  }

  /** The last segment of the last log id wraps to segment 0 of log id 0. */
  lemma NextWrapsLogId(timeline: nat, last: nat, pgVersion: nat)
    requires timeline < Span && last < Span - 1
    ensures NextSegment(Segment(timeline, Span - 1, last), last, pgVersion) == Segment(timeline, 0, 0)
  {
  }

  /** The name of a segment read as a segment and stepped is the name of the stepped segment. */
  lemma NextNameOfSegment(w: Segment, last: nat, pgVersion: nat)
    requires ValidSegment(w) && last < Span
    ensures NextName(SegmentName(w), last, pgVersion) == SegmentName(NextSegment(w, last, pgVersion))
  {
    SegmentRoundTrip(w);
  }

  // ---------------------------------------------------------------------
  // Range and queue
  // ---------------------------------------------------------------------

  /** x after n applications of f. */
  function Orbit<T>(f: T -> T, x: T, n: nat): T
    decreases n
  {
    if n == 0 then x else Orbit(f, f(x), n - 1)
  }

  /** count values starting at x, each f of the one before. */
  function Run<T>(f: T -> T, x: T, count: nat): (r: seq<T>)
    ensures |r| == count
    decreases count
  {
    if count == 0 then [] else [x] + Run(f, f(x), count - 1)
  }

  lemma {:induction false} OrbitStep<T>(f: T -> T, x: T, n: nat)
    ensures Orbit(f, x, n + 1) == f(Orbit(f, x, n))
    decreases n
  {
    if n > 0 {
      OrbitStep(f, f(x), n - 1);
    }
  }

  lemma {:induction false} RunAt<T>(f: T -> T, x: T, count: nat, i: nat)
    requires i < count
    ensures Run(f, x, count)[i] == Orbit(f, x, i)
    decreases i
  {
    if i > 0 {
      RunAt(f, f(x), count - 1, i - 1);
    }
  }

  lemma {:induction false} RunSnoc<T>(f: T -> T, x: T, count: nat)
    ensures Run(f, x, count + 1) == Run(f, x, count) + [Orbit(f, x, count)]
    decreases count
  {
    if count > 0 {
      RunSnoc(f, f(x), count - 1);
      ConcatAssoc([x], Run(f, f(x), count - 1), [Orbit(f, f(x), count - 1)]);
    }
  }

  /** The successor of a name as a total function; what is not a segment name is left alone. */
  function Successor(last: nat, pgVersion: nat): (f: string -> string)
    requires last < Span
  {
    s => if IsSegmentName(s) then NextName(s, last, pgVersion) else s
  }

  /** The name n steps after name. */
  function NameAfter(name: string, last: nat, pgVersion: nat, n: nat): string
    requires last < Span
  {
    Orbit(Successor(last, pgVersion), name, n)
  }

  /** count names starting at first (kept as given), each the successor of the one before. */
  function Range(first: string, last: nat, pgVersion: nat, count: nat): (r: seq<string>)
    requires last < Span
    ensures |r| == count
  {
    Run(Successor(last, pgVersion), first, count)
  }

  /** Every name after a segment name is a segment name, and the next one is its successor. */
  lemma {:induction false} NameAfterStep(name: string, last: nat, pgVersion: nat, n: nat)
    requires IsSegmentName(name) && last < Span
    ensures IsSegmentName(NameAfter(name, last, pgVersion, n))
    ensures NameAfter(name, last, pgVersion, n + 1) == NextName(NameAfter(name, last, pgVersion, n), last, pgVersion)
    decreases n
  {
    var f := Successor(last, pgVersion);
    if n > 0 {
      NameAfterStep(name, last, pgVersion, n - 1);
      OrbitStep(f, name, n - 1);
    }
    OrbitStep(f, name, n);
  }

  /** The i-th name of a range is the name i steps after its first, and is a segment name. */
  lemma RangeAt(first: string, last: nat, pgVersion: nat, count: nat, i: nat)
    requires IsSegmentName(first) && last < Span && i < count
    ensures Range(first, last, pgVersion, count)[i] == NameAfter(first, last, pgVersion, i)
    ensures IsSegmentName(Range(first, last, pgVersion, count)[i])
  {
    RunAt(Successor(last, pgVersion), first, count, i);
    NameAfterStep(first, last, pgVersion, i);
  }

  /** A range starts at first and each of its names is the successor of the one before it. */
  lemma RangeSuccessive(first: string, last: nat, pgVersion: nat, count: nat, i: nat)
    requires IsSegmentName(first) && last < Span && i + 1 < count
    ensures Range(first, last, pgVersion, count)[0] == first
    ensures IsSegmentName(Range(first, last, pgVersion, count)[i])
    ensures Range(first, last, pgVersion, count)[i + 1] == NextName(Range(first, last, pgVersion, count)[i], last, pgVersion)
  {
    RangeAt(first, last, pgVersion, count, 0);
    RangeAt(first, last, pgVersion, count, i);
    RangeAt(first, last, pgVersion, count, i + 1);
    NameAfterStep(first, last, pgVersion, i);
  }

  /** The segment n steps after w. */
  function Iterate(w: Segment, last: nat, pgVersion: nat, n: nat): (r: Segment)
    requires ValidSegment(w) && last < Span
    ensures ValidSegment(r)
    decreases n
  {
    if n == 0 then w else Iterate(NextSegment(w, last, pgVersion), last, pgVersion, n - 1)
  }

  /**
   * Past the first, the names of a range are the upper-case names of the
   * segments that follow the first one by one.
   */
  lemma {:induction false} NameAfterIsSegment(name: string, last: nat, pgVersion: nat, n: nat)
    requires IsSegmentName(name) && last < Span && n > 0
    ensures NameAfter(name, last, pgVersion, n) == SegmentName(Iterate(ParseSegment(name), last, pgVersion, n))
    decreases n
  {
    var next := NextName(name, last, pgVersion);
    assert NameAfter(name, last, pgVersion, n) == NameAfter(next, last, pgVersion, n - 1);
    if n > 1 {
      NameAfterIsSegment(next, last, pgVersion, n - 1);
      SegmentRoundTrip(NextSegment(ParseSegment(name), last, pgVersion));
    }
  }

  /** The segments from first on, count of them; the source asserts count is at least one. */
  method SegmentRange(first: string, size: nat, pgVersion: nat, count: nat) returns (r: seq<string>)
    requires IsSegmentName(first) && ValidSegmentSize(size) && count > 0
    ensures r == Range(first, MaxMinor(size), pgVersion, count)
  {
    var last := MaxMinor(size);
    r := [first];
    var current := first;
    var i := 0;
    while i < count - 1
      invariant 0 <= i <= count - 1
      invariant IsSegmentName(current)
      invariant r == Range(first, last, pgVersion, i + 1)
      invariant current == NameAfter(first, last, pgVersion, i)
    {
      var next := NextName(current, last, pgVersion);
      NameAfterStep(first, last, pgVersion, i);
      RunSnoc(Successor(last, pgVersion), first, i + 1);
      r := r + [next];
      current := next;
      i := i + 1;
    }
  }

  /**
   * How many segments the queue holds: the queue size over the segment size,
   * truncated to an unsigned 32-bit value, and never fewer than two.
   */
  function QueueTotal(queueSize: nat, size: nat): (n: nat)
    requires size > 0
    ensures n >= 2
    ensures queueSize / size < Span ==> n == if queueSize / size < 2 then 2 else queueSize / size
  {
    var total := (queueSize / size) % Span;
    if total < 2 then 2 else total
  }

  lemma QueueTotalExamples()
    ensures QueueTotal(Size16MB, Size16MB) == 2
    ensures QueueTotal(3 * Size16MB, Size16MB) == 3
    ensures QueueTotal(5 * Size1MB, Size1MB) == 5
  {
  }

  /**
   * The segments the queue should hold: from the requested segment when it
   * was not found, else from the one after it.
   */
  function IdealQueue(segment: string, found: bool, queueSize: nat, size: nat, pgVersion: nat): (r: seq<string>)
    requires IsSegmentName(segment) && ValidSegmentSize(size)
    ensures |r| == QueueTotal(queueSize, size)
    ensures r[0] == if found then NextName(segment, MaxMinor(size), pgVersion) else segment
  {
    var first := if found then NextName(segment, MaxMinor(size), pgVersion) else segment;
    Range(first, MaxMinor(size), pgVersion, QueueTotal(queueSize, size))
  }

  // ---------------------------------------------------------------------
  // Spool cleanup
  // ---------------------------------------------------------------------

  const OkExtension := ".ok"
  const ErrorExtension := ".error"

  predicate IsOkFile(f: string)
  {
    |f| >= 3 && f[|f| - 3..] == OkExtension
  }

  function OkStem(f: string): string
    requires IsOkFile(f)
  {
    f[..|f| - 3]
  }

  /**
   * The spool keeps a file when it is a segment of the queue, or the .ok
   * file (holding warnings) of a segment of the queue that is itself there.
   * Everything else goes, status files included, so that the segment is
   * fetched again.
   */
  predicate Kept(f: string, ideal: seq<string>, files: set<string>)
  {
    f in ideal || (IsOkFile(f) && OkStem(f) in ideal && OkStem(f) in files)
  }

  /** The files of the spool directory. */
  class Spool {
    var files: set<string>

    constructor(files: set<string>)
      ensures this.files == files
    {
      this.files := files;
    }

    /** Lists the directory: each file once, in no particular order. */
    method List() returns (names: StringList)
      ensures fresh(names)
      ensures Members(names.items) == files
      ensures |names.items| == |files|
    {
      names := new StringList();
      var rest := files;
      while rest != {}
        invariant rest <= files
        invariant Members(names.items) == files - rest
        invariant |names.items| + |rest| == |files|
        decreases |rest|
      {
        var x :| x in rest;
        MembersSnoc(names.items, x);
        names.Add(x);
        rest := rest - {x};
      }
    }

    method Remove(f: string)
      modifies this
      ensures files == old(files) - {f}
    {
      files := files - {f};
    }
  }

  /** A string sorts before itself with more appended. */
  lemma {:induction false} ProperPrefixLess(a: string, b: string)
    requires |a| < |b| && b[..|a|] == a
    ensures Less(a, b)
  {
    if |a| > 0 {
      assert b[1..][..|a| - 1] == a[1..];
      ProperPrefixLess(a[1..], b[1..]);
    }
  }

  /**
   * In a sorted listing an .ok file comes after its segment, so when it is
   * reached its segment has been seen if it is there at all.
   */
  lemma StemSeenFirst(s: seq<string>, i: nat)
    requires SortedBy(s, SortAsc) && i < |s| && IsOkFile(s[i])
    ensures OkStem(s[i]) in s ==> OkStem(s[i]) in s[..i]
  {
    var f := s[i];
    var stem := OkStem(f);
    if stem in s {
      var j :| 0 <= j < |s| && s[j] == stem;
      ProperPrefixLess(stem, f);
      if j >= i {
        assert LessEq(f, stem);
        if f == stem { LessIrreflexive(f); } else { LessAsymmetric(stem, f); }
      }
      assert s[..i][j] == stem;
    }
  }

  /** The step of the cleanup on one listed file: the file stays exactly when the spool keeps it. */
  lemma CleanupStep(s: seq<string>, i: nat, ideal: seq<string>, files: set<string>, keep: set<string>, inIdeal: bool, stemKept: bool)
    requires SortedBy(s, SortAsc) && i < |s| && Members(s) == files
    requires keep == set x | x in s[..i] && x in ideal
    requires inIdeal == (s[i] in ideal)
    requires stemKept == (IsOkFile(s[i]) && OkStem(s[i]) in keep)
    ensures Kept(s[i], ideal, files) <==> inIdeal || stemKept
  {
    if IsOkFile(s[i]) {
      StemSeenFirst(s, i);
    }
  }

  lemma SamePermutationMembers(a: seq<string>, b: seq<string>)
    requires multiset(a) == multiset(b)
    ensures Members(a) == Members(b)
  {
    forall x ensures x in a <==> x in b {
      assert x in a <==> x in multiset(a);
      assert x in b <==> x in multiset(b);
    }
  }

  /**
   * Walks the sorted listing s of the spool: a segment of the queue is kept
   * and remembered, an .ok file is kept when its segment was remembered, and
   * every other file is removed.
   */
  method CleanSpool(spool: Spool, ideal: seq<string>, s: seq<string>) returns (keep: StringList)
    requires SortedBy(s, SortAsc) && Members(s) == spool.files
    modifies spool
    ensures fresh(keep)
    ensures Members(keep.items) == set x | x in ideal && x in old(spool.files)
    ensures spool.files == set f | f in old(spool.files) && Kept(f, ideal, old(spool.files))
  {
    ghost var files := spool.files;
    keep := new StringList();
    var i := 0;
    while i < |s|
      invariant 0 <= i <= |s|
      invariant Members(keep.items) == set x | x in s[..i] && x in ideal
      invariant spool.files == files - set f | f in s[..i] && !Kept(f, ideal, files)
    {
      var file := s[i];
      var inIdeal := file in ideal;
      var stemKept := IsOkFile(file) && keep.Exists(OkStem(file));
      CleanupStep(s, i, ideal, files, Members(keep.items), inIdeal, stemKept);
      assert s[..i + 1] == s[..i] + [file];
      if inIdeal {
        MembersSnoc(keep.items, file);
        keep.Add(file);
      } else if !stemKept {
        spool.Remove(file);
      }
      i := i + 1;
    }
    assert s[..i] == s;
  }

  /** The segments of the queue that the spool does not keep, in queue order. */
  method Needed(ideal: seq<string>, keep: StringList) returns (needed: seq<string>)
    ensures needed == Without(ideal, Members(keep.items))
  {
    needed := [];
    var k := 0;
    while k < |ideal|
      invariant 0 <= k <= |ideal|
      invariant needed == Without(ideal[..k], Members(keep.items))
    {
      assert ideal[..k + 1] == ideal[..k] + [ideal[k]];
      WithoutSnoc(ideal[..k], ideal[k], Members(keep.items));
      if !keep.Exists(ideal[k]) {
        needed := needed + [ideal[k]];
      }
      k := k + 1;
    }
    assert ideal[..k] == ideal;
  }

  /**
   * Lists the spool, sorts the listing and cleans the spool against the
   * queue; the result is the queue minus what the spool held, in queue order.
   */
  method Reconcile(spool: Spool, ideal: seq<string>) returns (needed: seq<string>)
    modifies spool
    ensures needed == Without(ideal, old(spool.files))
    ensures spool.files == set f | f in old(spool.files) && Kept(f, ideal, old(spool.files))
  {
    var actual := spool.List();
    ghost var listed := actual.items;
    actual.Sort(SortAsc);
    SamePermutationMembers(listed, actual.items);
    var keep := CleanSpool(spool, ideal, actual.items);
    needed := Needed(ideal, keep);
    WithoutSameOn(ideal, Members(keep.items), old(spool.files));
  }

  /**
   * Works out the segments still to fetch and cleans the spool. The result
   * is the queue minus the segments already in the spool, in queue order;
   * the spool keeps exactly the files Kept says.
   */
  method QueueNeed(spool: Spool, segment: string, found: bool, queueSize: nat, size: nat, pgVersion: nat)
    returns (needed: seq<string>)
    requires IsSegmentName(segment) && ValidSegmentSize(size)
    modifies spool
    ensures needed == Without(IdealQueue(segment, found, queueSize, size, pgVersion), old(spool.files))
    ensures spool.files == set f | f in old(spool.files) && Kept(f, IdealQueue(segment, found, queueSize, size, pgVersion), old(spool.files))
  {
    var first := if found then NextName(segment, MaxMinor(size), pgVersion) else segment;
    var ideal := SegmentRange(first, size, pgVersion, QueueTotal(queueSize, size));
    needed := Reconcile(spool, ideal);
  }

  // ---------------------------------------------------------------------
  // Status files
  // ---------------------------------------------------------------------

  const LineFeed := "\n"

  /** What became of one segment the command was asked for. */
  datatype SegmentOutcome = Found(warnings: seq<string>) | NotFound(warnings: seq<string>) | Failed(code: nat, message: string, warnings: seq<string>)

  /** The text of an .ok file: empty without warnings, else code 0 and the warnings one per line. */
  function OkText(warnings: seq<string>): (t: string)
    ensures t == "" <==> |warnings| == 0
    ensures |warnings| > 0 ==> "0" + LineFeed <= t
  {
    if |warnings| == 0 then "" else "0" + LineFeed + Join(warnings, LineFeed)
  }

  /** The text of an .error file: the code, then the message, then any warnings one per line. */
  function ErrorText(code: nat, message: string, warnings: seq<string>): (t: string)
    ensures |NatToDecimal(code)| < |t| && t[..|NatToDecimal(code)|] == NatToDecimal(code) && t[|NatToDecimal(code)|] == '\n'
  {
    NatToDecimal(code) + LineFeed + message + (if |warnings| == 0 then "" else LineFeed + Join(warnings, LineFeed))
  }

  /**
   * The status file, if any, left for a segment: an .ok file for a found
   * segment with warnings and for every segment not found, an .error file
   * for a segment that could not be fetched.
   */
  function StatusFile(segment: string, outcome: SegmentOutcome): (r: Option<(string, string)>)
    ensures r.None? <==> outcome.Found? && |outcome.warnings| == 0
    ensures r.Some? ==> r.value.0 == segment + (if outcome.Failed? then ErrorExtension else OkExtension)
  {
    match outcome
    case Found(w) => if |w| == 0 then None else Some((segment + OkExtension, OkText(w)))
    case NotFound(w) => Some((segment + OkExtension, OkText(w)))
    case Failed(c, m, w) => Some((segment + ErrorExtension, ErrorText(c, m, w)))
  }

  /** The status file for an error of the whole command, before any segment was looked at. */
  function GlobalErrorFile(e: Error): (r: (string, string))
    ensures r.0 == "global.error"
    ensures r.1 == NatToDecimal(Code(e.errType)) + LineFeed + e.message
  {
    ("global.error", ErrorText(Code(e.errType), e.message, []))
  }

  /**
   * Reads a non-empty status text back: the code on the first line and the
   * rest; without a line feed it is malformed.
   */
  function ReadStatus(content: string): (r: Option<(nat, string)>)
  {
    var i := FirstIndex(content, '\n');
    if i == |content| || i == 0 || !AllDigits(content[..i]) then None
    else Some((DecimalValue(content[..i]), content[i + 1..]))
  }

  lemma ReadCodeLine(code: nat, rest: string)
    ensures ReadStatus(NatToDecimal(code) + LineFeed + rest) == Some((code, rest))
  {
    var d := NatToDecimal(code);
    var content := d + LineFeed + rest;
    assert forall k :: 0 <= k < |d| ==> d[k] != '\n';
    assert content == d + (LineFeed + rest);
    FirstIndexPrefix(d, LineFeed + rest, '\n');
    assert content[..|d|] == d;
    assert content[|d| + 1..] == rest;
    DecimalRoundTrip(code);
  }

  /** An error file reads back as its code and its message followed by the warnings. */
  lemma ErrorTextRoundTrip(code: nat, message: string, warnings: seq<string>)
    ensures ReadStatus(ErrorText(code, message, warnings))
            == Some((code, message + (if |warnings| == 0 then "" else LineFeed + Join(warnings, LineFeed))))
  {
    var tail := message + (if |warnings| == 0 then "" else LineFeed + Join(warnings, LineFeed));
    assert ErrorText(code, message, warnings) == NatToDecimal(code) + LineFeed + tail;
    ReadCodeLine(code, tail);
  }

  /**
   * An .ok file with warnings reads back as code 0 and the warnings, which
   * split back into the list when no warning holds a line feed; an empty
   * .ok file carries nothing.
   */
  lemma OkTextRoundTrip(warnings: seq<string>)
    requires forall k :: 0 <= k < |warnings| ==> '\n' !in warnings[k]
    ensures |warnings| == 0 <==> OkText(warnings) == ""
    ensures |warnings| > 0 ==> ReadStatus(OkText(warnings)) == Some((0, Join(warnings, LineFeed)))
    ensures |warnings| > 0 ==> Split(ReadStatus(OkText(warnings)).value.1, '\n') == warnings
  {
    if |warnings| > 0 {
      ReadCodeLine(0, Join(warnings, LineFeed));
      assert NatToDecimal(0) == "0";
      SplitJoin(warnings, '\n');
    }
  }

  /** A segment gets a status file unless it was found without warnings; the file's kind tells found or not from failed. */
  lemma StatusFileKinds(segment: string, outcome: SegmentOutcome)
    ensures StatusFile(segment, outcome).None? <==> outcome.Found? && |outcome.warnings| == 0
    ensures StatusFile(segment, outcome).Some? ==>
              StatusFile(segment, outcome).value.0 == segment + (if outcome.Failed? then ErrorExtension else OkExtension)
    ensures outcome.Failed? ==> ReadStatus(StatusFile(segment, outcome).value.1).Some?
    ensures outcome.NotFound? && |outcome.warnings| == 0 ==> StatusFile(segment, outcome).value.1 == ""
  {
    if outcome.Failed? {
      ErrorTextRoundTrip(outcome.code, outcome.message, outcome.warnings);
    }
  }

  /** The global error file of a host error (72) and of an invalid parameter (96): the code line, then the message. */
  lemma GlobalErrorExamples(message: string)
    ensures GlobalErrorFile(Error(HostInvalidError, message)) == ("global.error", "72\n" + message)
    ensures GlobalErrorFile(Error(ParamInvalidError, message)) == ("global.error", "96\n" + message)
  {
    GlobalErrorText(HostInvalidError, message, "72");
    GlobalErrorText(ParamInvalidError, message, "96");
    assert "72" + LineFeed == "72\n" && "96" + LineFeed == "96\n";
  }

  lemma GlobalErrorText(t: Kind, message: string, code: string)
    requires code == NatToDecimal(Code(t))
    ensures GlobalErrorFile(Error(t, message)) == ("global.error", code + LineFeed + message)
  {
    var text := ErrorText(Code(t), message, []);
    assert text == code + LineFeed + message + "";
    assert code + LineFeed + message + "" == code + LineFeed + message;
  }

  // ---------------------------------------------------------------------
  // Log line
  // ---------------------------------------------------------------------

  /** The segments as logged: the only one, or the first and the last joined by "...". */
  function LogRange(segments: seq<string>): (t: string)
    requires |segments| > 0
    ensures segments[0] <= t
    ensures |segments[|segments| - 1]| <= |t| && t[|t| - |segments[|segments| - 1]|..] == segments[|segments| - 1]
  {
    if |segments| == 1 then segments[0] else segments[0] + "..." + segments[|segments| - 1]
  }

  function GetLogLine(segments: seq<string>): string
    requires |segments| > 0
  {
    "get " + NatToDecimal(|segments|) + " WAL file(s) from archive: " + LogRange(segments)
  }

  /** For segment names the logged range tells one segment from several and gives back the first and the last. */
  lemma LogRangeRecovers(segments: seq<string>)
    requires |segments| > 0 && forall k :: 0 <= k < |segments| ==> IsSegmentName(segments[k])
    ensures |LogRange(segments)| == 24 <==> |segments| == 1
    ensures |LogRange(segments)| >= 24 && LogRange(segments)[..24] == segments[0]
    ensures LogRange(segments)[|LogRange(segments)| - 24..] == segments[|segments| - 1]
    ensures |segments| > 1 ==> LogRange(segments)[24..27] == "..."
  {
    var t := LogRange(segments);
    var last := segments[|segments| - 1];
    assert IsSegmentName(segments[0]) && IsSegmentName(last);
    if |segments| > 1 {
      assert t == segments[0] + ("..." + last);
      assert t[..24] == segments[0];
      assert t[24..] == "..." + last;
      assert t[27..] == last;
    }
  }
}
