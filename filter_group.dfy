// A filter group: the ordered list of filters that data passes through, in
// the order they were added, and the flags that track its life: it is
// built, opened, processed any number of times and closed, and whether it
// is done and whether it wants the same input again may only be asked
// between opening and closing.

module FilterGroup {
  import opened Errors

  /**
   * A filter, seen from the group: its type name and whether it produces
   * output of its own. What it does to the data is not part of this model.
   */
  datatype Filter = Filter(filterType: string, output: bool)

  /** The filter a group is given on opening so that data reaches the output: it copies its input out. */
  const BufferFilter := Filter("buffer", true)

  /** A group needs the buffer filter when it is empty or its last filter produces no output. */
  predicate NeedsBuffer(s: seq<Filter>)
  {
    s == [] || !s[|s| - 1].output
  }

  /**
   * The filters of a group once opened: the buffer filter is appended when
   * it is needed, so that the last filter always produces output.
   */
  function OpenedFilters(s: seq<Filter>): (r: seq<Filter>)
    ensures |r| > 0 && r[|r| - 1].output
    ensures |s| <= |r| && r[..|s|] == s
    ensures NeedsBuffer(s) <==> r == s + [BufferFilter]
    ensures !NeedsBuffer(s) <==> r == s
  {
    if NeedsBuffer(s) then s + [BufferFilter] else s
  }

  /** Opening adds at most one filter: a list already opened is left as it is. */
  lemma OpenedFiltersIdempotent(s: seq<Filter>)
    ensures OpenedFilters(OpenedFilters(s)) == OpenedFilters(s)
  {
    var r := OpenedFilters(s);
    assert !NeedsBuffer(r);
  }

  /** Where a group is in its life. */
  datatype Phase = Building | Opened | Closed

  /** s with x placed before index i; an index equal to the length appends. */
  function FilterInsert(s: seq<Filter>, i: nat, x: Filter): (r: seq<Filter>)
    requires i <= |s|
    ensures |r| == |s| + 1 && r[i] == x
    ensures forall k :: 0 <= k < i ==> r[k] == s[k]
    ensures forall k :: i < k < |r| ==> r[k] == s[k - 1]
  {
    s[..i] + [x] + s[i..]
  }

  /** Inserting before the end is adding at the end. */
  lemma InsertAtEndIsAdd(s: seq<Filter>, x: Filter)
    ensures FilterInsert(s, |s|, x) == s + [x]
  {
    assert s[|s|..] == [];
  }

  /** Inserting before index 0 puts the filter first. */
  lemma InsertAtStartIsFirst(s: seq<Filter>, x: Filter)
    ensures FilterInsert(s, 0, x) == [x] + s
  {
    assert s[..0] == [];
  }

  class IoFilterGroup {
    /** The filters, in the order data is passed through them. */
    var filters: seq<Filter>
    /** Should the same input be passed again? */
    var inputSame: bool
    /** Is processing done? */
    var done: bool
    var isOpened: bool
    var isClosed: bool
    /** Results the filters produced, by filter type; gathered when the group is closed. */
    var results: map<string, string>

    /** The group can only be closed after it was opened. */
    ghost predicate Valid()
      reads this
    {
      isClosed ==> isOpened
    }

    ghost function PhaseOf(): Phase
      reads this
    {
      if !isOpened then Building else if !isClosed then Opened else Closed
    }

    /** A new group: no filters, not opened, not closed, not done. */
    constructor()
      ensures Valid() && PhaseOf() == Building
      ensures filters == [] && !inputSame && !done && !isOpened && !isClosed && results == map[]
    {
      filters := [];
      inputSame := false;
      done := false;
      isOpened := false;
      isClosed := false;
      results := map[];
    }

    /** The number of filters in the group. */
    function Size(): (n: nat)
      reads this
      ensures n == |filters|
    {
      |filters|
    }

    /** Whether processing is done; only meaningful while the group is open. */
    function Done(): (r: bool)
      reads this
      requires isOpened && !isClosed
      ensures r == done
    {
      done
    }

    /** Whether the same input must be passed again; only meaningful while the group is open. */
    function InputSame(): (r: bool)
      reads this
      requires isOpened && !isClosed
      ensures r == inputSame
    {
      inputSame
    }

    /** Adds a filter at the end: data reaches it after every filter already there. */
    method Add(filter: Filter)
      modifies this
      ensures filters == old(filters) + [filter]
      ensures Size() == old(Size()) + 1
      ensures inputSame == old(inputSame) && done == old(done) && isOpened == old(isOpened) && isClosed == old(isClosed)
      ensures results == old(results)
    {
      filters := filters + [filter];
    }

    /** Inserts a filter before the given index. */
    method Insert(listIdx: nat, filter: Filter)
      requires listIdx <= |filters|
      modifies this
      ensures filters == FilterInsert(old(filters), listIdx, filter)
      ensures inputSame == old(inputSame) && done == old(done) && isOpened == old(isOpened) && isClosed == old(isClosed)
      ensures results == old(results)
    {
      filters := filters[..listIdx] + [filter] + filters[listIdx..];
    }

    /** Removes every filter. */
    method Clear()
      modifies this
      ensures filters == [] && Size() == 0
      ensures inputSame == old(inputSame) && done == old(done) && isOpened == old(isOpened) && isClosed == old(isClosed)
      ensures results == old(results)
    {
      filters := [];
    }

    /**
     * Opens a group that is being built; processing may start. A group that
     * is empty or whose last filter produces no output gets the buffer filter
     * at the end.
     */
    method Open()
      requires Valid() && PhaseOf() == Building
      modifies this
      ensures Valid() && PhaseOf() == Opened
      ensures filters == OpenedFilters(old(filters)) && !done && !inputSame && results == old(results)
    {
      if |filters| == 0 || !filters[|filters| - 1].output {
        filters := filters + [BufferFilter];
      }
      isOpened := true;
      done := false;
      inputSame := false;
    }

    /**
     * One pass of data through the open group; whether the filters are done
     * and whether they want the same input again is what the filters report.
     */
    method Process(filtersDone: bool, filtersInputSame: bool)
      requires Valid() && PhaseOf() == Opened
      modifies this
      ensures Valid() && PhaseOf() == Opened
      ensures filters == old(filters) && Done() == filtersDone && InputSame() == filtersInputSame
      ensures results == old(results)
    {
      done := filtersDone;
      inputSame := filtersInputSame;
    }

    /**
     * Closes an open group and keeps the results its filters produced, given
     * here by filter type.
     */
    method Close(gathered: map<string, string>)
      requires Valid() && PhaseOf() == Opened
      requires forall t :: t in gathered ==> exists k :: 0 <= k < |filters| && filters[k].filterType == t
      modifies this
      ensures Valid() && PhaseOf() == Closed
      ensures filters == old(filters) && done == old(done) && inputSame == old(inputSame)
      ensures results == gathered
    {
      isClosed := true;
      results := gathered;
    }

    /** The result of the filter of the given type, once the group is closed; none if it produced none. */
    function ResultOf(filterType: string): (r: Option<string>)
      reads this
      requires isClosed
      ensures r.Some? <==> filterType in results
      ensures r.Some? ==> r.value == results[filterType]
    {
      if filterType in results then Some(results[filterType]) else None
    }
  }

  /**
   * The life of a group with three filters: they stay in the order added, a
   * filter inserted before index 0 comes first, opening appends the buffer
   * filter exactly when the last filter produces no output, and the group is
   * processed until done and closed, after which the one result gathered is
   * found by its filter's type and no other.
   */
  method Lifecycle(a: Filter, b: Filter, c: Filter) returns (order: seq<Filter>, size: nat, openList: seq<Filter>, finished: bool, again: bool, found: Option<string>, missing: Option<string>)
    requires a.filterType != b.filterType
    ensures order == [c, a, b] && size == 3
    ensures openList == if b.output then [c, a, b] else [c, a, b, BufferFilter]
    ensures finished && !again
    ensures found == Some("4096") && missing == None
  {
    var g := new IoFilterGroup();
    g.Add(a);
    g.Add(b);
    assert g.filters == [a, b];
    g.Insert(0, c);
    InsertAtStartIsFirst([a, b], c);
    order := g.filters;
    size := g.Size();
    g.Open();
    openList := g.filters;
    g.Process(false, true);
    again := g.InputSame();
    g.Process(true, false);
    finished := g.Done();
    again := g.InputSame();
    assert g.filters[1] == a;
    g.Close(map[a.filterType := "4096"]);
    found := g.ResultOf(a.filterType);
    missing := g.ResultOf(b.filterType);
  }
}
