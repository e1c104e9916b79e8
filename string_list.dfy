// An ordered list of strings that is changed in place: items are appended,
// inserted, removed and sorted, and the list is queried by position and by
// equality. Items compare byte-wise, as the default string comparator does.

module StringLists {
  import opened Errors
  import opened Text

  datatype SortOrder = SortNone | SortAsc | SortDesc

  /** a may come before b in a list sorted in the given order. */
  predicate InOrder(a: string, b: string, order: SortOrder)
  {
    match order
    case SortNone => true
    case SortAsc => LessEq(a, b)
    case SortDesc => LessEq(b, a)
  }

  predicate SortedBy(s: seq<string>, order: SortOrder)
  {
    forall i, j :: 0 <= i < j < |s| ==> InOrder(s[i], s[j], order)
  }

  lemma InOrderTotal(a: string, b: string, order: SortOrder)
    ensures InOrder(a, b, order) || InOrder(b, a, order)
  {
    LessTotal(a, b);
  }

  lemma InOrderTransitive(a: string, b: string, c: string, order: SortOrder)
    requires InOrder(a, b, order) && InOrder(b, c, order)
    ensures InOrder(a, c, order)
  {
    if order == SortAsc && a != b && b != c {
      LessTransitive(a, b, c);
    } else if order == SortDesc && a != b && b != c {
      LessTransitive(c, b, a);
    }
  }

  // ---------------------------------------------------------------------
  // Specification functions
  // ---------------------------------------------------------------------

  /** s with x placed at index i, later items shifted right. */
  function InsertAt(s: seq<string>, i: nat, x: string): seq<string>
    requires i <= |s|
  {
    s[..i] + [x] + s[i..]
  }

  /** s without the item at index i. */
  function RemoveAt(s: seq<string>, i: nat): seq<string>
    requires i < |s|
  {
    s[..i] + s[i + 1..]
  }

  /** Removing what was inserted gives the list back; an insert then makes the list one longer with x at i. */
  lemma InsertRemoveRoundTrip(s: seq<string>, i: nat, x: string)
    requires i <= |s|
    ensures |InsertAt(s, i, x)| == |s| + 1 && InsertAt(s, i, x)[i] == x
    ensures RemoveAt(InsertAt(s, i, x), i) == s
    ensures multiset(InsertAt(s, i, x)) == multiset(s) + multiset{x}
  {
    var t := InsertAt(s, i, x);
    assert t[..i] == s[..i];
    assert t[i + 1..] == s[i..];
    assert s == s[..i] + s[i..];
  }

  /** The set of the items of a list. */
  function Members(s: seq<string>): set<string>
  {
    set x | x in s
  }

  lemma MembersSnoc(s: seq<string>, x: string)
    ensures Members(s + [x]) == Members(s) + {x}
  {
    assert forall y :: y in s + [x] <==> y in s || y == x;
  }

  /** The items of a that are not in b, in the order of a. */
  function Without(a: seq<string>, b: set<string>): (r: seq<string>)
  {
    if |a| == 0 then []
    else if a[0] in b then Without(a[1..], b)
    else [a[0]] + Without(a[1..], b)
  }

  /** An item is kept exactly when a holds it and b does not; kept items stay in the order of a. */
  lemma {:induction false} WithoutMembers(a: seq<string>, b: set<string>, x: string)
    ensures x in Without(a, b) <==> x in a && x !in b
    ensures |Without(a, b)| <= |a|
  {
    if |a| > 0 {
      WithoutMembers(a[1..], b, x);
      assert x in a <==> x == a[0] || x in a[1..];
    }
  }

  /** Only the membership of a's own items in b matters. */
  lemma {:induction false} WithoutSameOn(a: seq<string>, b: set<string>, c: set<string>)
    requires forall x :: x in a ==> (x in b <==> x in c)
    ensures Without(a, b) == Without(a, c)
  {
    if |a| > 0 {
      assert a[0] in a;
      WithoutSameOn(a[1..], b, c);
    }
  }

  lemma {:induction false} WithoutSnoc(a: seq<string>, x: string, b: set<string>)
    ensures Without(a + [x], b) == Without(a, b) + (if x in b then [] else [x])
  {
    if |a| == 0 {
      assert a + [x] == [x];
      assert [x][1..] == [];
    } else {
      assert (a + [x])[1..] == a[1..] + [x];
      WithoutSnoc(a[1..], x, b);
    }
  }

  /** Each item quoted on both sides. */
  function Quoted(s: seq<string>, quote: string): (r: seq<string>)
  {
    if |s| == 0 then [] else Quoted(s[..|s| - 1], quote) + [quote + s[|s| - 1] + quote]
  }

  /** Quoting with the empty quote changes nothing. */
  lemma {:induction false} QuotedEmpty(s: seq<string>)
    ensures Quoted(s, "") == s
  {
    if |s| > 0 {
      QuotedEmpty(s[..|s| - 1]);
      assert "" + s[|s| - 1] + "" == s[|s| - 1];
      assert s[..|s| - 1] + [s[|s| - 1]] == s;
    }
  }

  lemma {:induction false} QuotedLength(s: seq<string>, quote: string)
    ensures |Quoted(s, quote)| == |s|
  {
    if |s| > 0 { QuotedLength(s[..|s| - 1], quote); }
  }

  /** x placed before the first item it may precede. */
  function InsertOrdered(x: string, s: seq<string>, order: SortOrder): (r: seq<string>)
  {
    if |s| == 0 then [x]
    else if InOrder(x, s[0], order) then [x] + s
    else [s[0]] + InsertOrdered(x, s[1..], order)
  }

  /** Insertion sort; the list sort of the source is a quicksort, and both give a sorted permutation. */
  function SortSeq(s: seq<string>, order: SortOrder): (r: seq<string>)
  {
    if order == SortNone || |s| == 0 then s
    else InsertOrdered(s[0], SortSeq(s[1..], order), order)
  }

  lemma {:induction false} InsertOrderedPermutation(x: string, s: seq<string>, order: SortOrder)
    ensures multiset(InsertOrdered(x, s, order)) == multiset(s) + multiset{x}
  {
    if |s| > 0 && !InOrder(x, s[0], order) {
      InsertOrderedPermutation(x, s[1..], order);
      assert s == [s[0]] + s[1..];
    }
  }

  /** Inserting into a sorted list keeps it sorted. */
  lemma {:induction false} InsertOrderedSorted(x: string, s: seq<string>, order: SortOrder)
    requires SortedBy(s, order)
    ensures SortedBy(InsertOrdered(x, s, order), order)
  {
    var r := InsertOrdered(x, s, order);
    if |s| == 0 {
    } else if InOrder(x, s[0], order) {
      forall i, j | 0 <= i < j < |r|
        ensures InOrder(r[i], r[j], order)
      {
        if i == 0 && j > 1 { InOrderTransitive(x, s[0], s[j - 1], order); }
      }
    } else {
      var t := InsertOrdered(x, s[1..], order);
      assert SortedBy(s[1..], order);
      InsertOrderedSorted(x, s[1..], order);
      InsertOrderedPermutation(x, s[1..], order);
      InOrderTotal(x, s[0], order);
      forall j | 0 <= j < |t|
        ensures InOrder(s[0], t[j], order)
      {
        assert t[j] in multiset(t);
        if t[j] != x {
          assert t[j] in multiset(s[1..]);
          var k :| 0 <= k < |s[1..]| && s[1..][k] == t[j];
          assert s[k + 1] == t[j];
        }
      }
      assert r == [s[0]] + t;
    }
  }

  /** Sorting gives a permutation of the list that is ordered. */
  lemma {:induction false} SortSeqSorted(s: seq<string>, order: SortOrder)
    ensures multiset(SortSeq(s, order)) == multiset(s)
    ensures SortedBy(SortSeq(s, order), order)
  {
    if order != SortNone && |s| > 0 {
      SortSeqSorted(s[1..], order);
      InsertOrderedPermutation(s[0], SortSeq(s[1..], order), order);
      InsertOrderedSorted(s[0], SortSeq(s[1..], order), order);
      assert s == [s[0]] + s[1..];
    }
  }

  /** Sorting a list that is already in order changes nothing. */
  lemma {:induction false} SortSeqIdempotent(s: seq<string>, order: SortOrder)
    requires SortedBy(s, order)
    ensures SortSeq(s, order) == s
  {
    if order != SortNone && |s| > 0 {
      assert SortedBy(s[1..], order);
      SortSeqIdempotent(s[1..], order);
      if |s| > 1 {
        assert InOrder(s[0], s[1..][0], order);
      }
      assert [s[0]] + s[1..] == s;
    }
  }

  // ---------------------------------------------------------------------
  // Helpers for the anti-merge
  // ---------------------------------------------------------------------

  lemma LessThenLessEq(a: string, b: string, c: string)
    requires Less(a, b) && LessEq(b, c)
    ensures Less(a, c)
  {
    if b != c { LessTransitive(a, b, c); }
  }

  /** x is not held by a sorted list whose items before idx are below x and whose item at idx is above it. */
  lemma AbsentBetween(x: string, anti: seq<string>, idx: nat)
    requires SortedBy(anti, SortAsc)
    requires idx <= |anti|
    requires forall k :: 0 <= k < idx ==> Less(anti[k], x)
    requires idx < |anti| ==> Less(x, anti[idx])
    ensures x !in anti
  {
    if x in anti {
      var k :| 0 <= k < |anti| && anti[k] == x;
      if k < idx {
        LessIrreflexive(x);
      } else {
        assert LessEq(anti[idx], anti[k]);
        LessThenLessEq(x, anti[idx], anti[k]);
        LessIrreflexive(x);
      }
    }
  }

  class StringList {
    var items: seq<string>

    /** A new empty list. */
    constructor()
      ensures items == []
    {
      items := [];
    }

    /** A new list holding the items of source, in the same order. */
    constructor Dup(source: StringList)
      ensures items == source.items
    {
      items := source.items;
    }

    function Size(): nat
      reads this
    {
      |items|
    }

    /** The list is empty exactly when its size is zero. */
    predicate Empty()
      reads this
      ensures Empty() <==> Size() == 0
    {
      items == []
    }

    predicate Exists(s: string)
      reads this
    {
      s in items
    }

    /** The item at an index; an index past the end is an assertion error. */
    function Get(i: nat): (r: Result<string>)
      reads this
      ensures r.Ok? <==> i < Size()
      ensures r.Ok? ==> r.value == items[i]
      ensures r.Fail? ==> r.error == Error(AssertError, "cannot get index " + NatToDecimal(i)
                                         + " from list with " + NatToDecimal(Size()) + " value(s)")
    {
      if i < |items| then Ok(items[i])
      else Fail(Error(AssertError, "cannot get index " + NatToDecimal(i) + " from list with " + NatToDecimal(|items|) + " value(s)"))
    }

    /** Appends s; the earlier items are unchanged. */
    method Add(s: string)
      modifies this
      ensures items == old(items) + [s]
      ensures Size() == old(Size()) + 1 && Get(old(Size())) == Ok(s)
      ensures forall k :: 0 <= k < old(Size()) ==> items[k] == old(items[k])
    {
      items := items + [s];
    }

    /** Appends s unless an equal item is already held. */
    method AddIfMissing(s: string)
      modifies this
      ensures old(Exists(s)) ==> items == old(items)
      ensures !old(Exists(s)) ==> items == old(items) + [s]
      ensures Exists(s)
    {
      if !Exists(s) {
        Add(s);
      }
    }

    /** Puts s at index i and shifts the later items right. */
    method Insert(i: nat, s: string)
      requires i <= Size()
      modifies this
      ensures items == InsertAt(old(items), i, s)
      ensures Size() == old(Size()) + 1 && Get(i) == Ok(s)
    {
      InsertRemoveRoundTrip(items, i, s);
      items := items[..i] + [s] + items[i..];
    }

    /** Deletes exactly the item at index i. */
    method RemoveIdx(i: nat)
      requires i < Size()
      modifies this
      ensures items == RemoveAt(old(items), i)
      ensures Size() == old(Size()) - 1
    {
      items := items[..i] + items[i + 1..];
    }

    /**
     * Removes the first item equal to s and reports whether there was one;
     * the list loses exactly one copy of s.
     */
    method Remove(s: string) returns (found: bool)
      modifies this
      ensures found <==> old(Exists(s))
      ensures found ==> items == RemoveAt(old(items), FirstIndex(old(items), s))
      ensures !found ==> items == old(items)
      ensures multiset(items) == multiset(old(items)) - multiset{s}
    {
      var i := 0;
      while i < |items| && items[i] != s
        invariant 0 <= i <= |items|
        invariant forall k :: 0 <= k < i ==> items[k] != s
      {
        i := i + 1;
      }
      assert i == FirstIndex(items, s) by { FirstIndexUnique(items, s, i); }
      found := i < |items|;
      if found {
        assert items == items[..i] + [s] + items[i + 1..];
        items := items[..i] + items[i + 1..];
      } else {
        assert s !in multiset(items);
      }
    }

    /** Sorts the list: the items are then a permutation of the old ones, in order. */
    method Sort(order: SortOrder)
      modifies this
      ensures multiset(items) == multiset(old(items))
      ensures SortedBy(items, order)
      ensures order == SortNone ==> items == old(items)
      ensures SortedBy(old(items), order) ==> items == old(items)
    {
      SortSeqSorted(items, order);
      if SortedBy(items, order) { SortSeqIdempotent(items, order); }
      items := SortSeq(items, order);
    }

    /** The items, each enclosed in quote, with sep between consecutive items. */
    method JoinQuote(sep: string, quote: string) returns (r: string)
      ensures r == Text.Join(Quoted(items, quote), sep)
    {
      r := "";
      var i := 0;
      while i < |items|
        invariant 0 <= i <= |items|
        invariant r == Text.Join(Quoted(items[..i], quote), sep)
      {
        assert items[..i + 1][..i] == items[..i];
        QuotedLength(items[..i], quote);
        if i != 0 {
          JoinSnoc(Quoted(items[..i], quote), quote + items[i] + quote, sep);
          r := r + sep;
        }
        r := r + quote + items[i] + quote;
        i := i + 1;
      }
      assert items[..i] == items;
    }

    /** The items in order with sep between consecutive items: a join quoted with the empty string. */
    method Join(sep: string) returns (r: string)
      ensures r == Text.Join(items, sep)
    {
      r := JoinQuote(sep, "");
      QuotedEmpty(items);
    }

    /**
     * The items of this list that anti does not hold, in order. Both lists
     * must be sorted ascending; the merge walks each of them once.
     */
    method MergeAnti(anti: StringList) returns (result: StringList)
      requires SortedBy(items, SortAsc) && SortedBy(anti.items, SortAsc)
      ensures fresh(result)
      ensures result.items == Without(items, Members(anti.items))
    {
      result := new StringList();
      var s, a := items, anti.items;
      var antiIdx := 0;
      var i := 0;
      while i < |s|
        invariant 0 <= i <= |s| && 0 <= antiIdx <= |a|
        invariant result.items == Without(s[..i], Members(a))
        invariant i == 0 ==> antiIdx == 0
        invariant i > 0 ==> forall k :: 0 <= k < antiIdx ==> Less(a[k], s[i - 1])
      {
        var x := s[i];
        var add := true;
        assert forall k :: 0 <= k < antiIdx ==> Less(a[k], x) by {
          if i > 0 {
            assert LessEq(s[i - 1], x);
            forall k | 0 <= k < antiIdx ensures Less(a[k], x) { LessThenLessEq(a[k], s[i - 1], x); }
          }
        }
        while antiIdx < |a|
          invariant 0 <= antiIdx <= |a|
          invariant forall k :: 0 <= k < antiIdx ==> Less(a[k], x)
          invariant add
          modifies {}
        {
          LessTotal(x, a[antiIdx]);
          if Less(x, a[antiIdx]) {
            break;
          } else if x == a[antiIdx] {
            add := false;
            break;
          }
          antiIdx := antiIdx + 1;
        }
        if add {
          AbsentBetween(x, a, antiIdx);
        } else {
          assert x in a;
        }
        assert s[..i + 1] == s[..i] + [x];
        WithoutSnoc(s[..i], x, Members(a));
        if add {
          result.Add(x);
        }
        i := i + 1;
      }
      assert s[..i] == items;
    }
  }

  /** The first index of x is the one index before which no item equals x. */
  lemma {:induction false} FirstIndexUnique(s: seq<string>, x: string, i: nat)
    requires i <= |s|
    requires forall k :: 0 <= k < i ==> s[k] != x
    requires i < |s| ==> s[i] == x
    ensures FirstIndex(s, x) == i
  {
    if |s| > 0 && i > 0 {
      FirstIndexUnique(s[1..], x, i - 1);
    }
  }
}
