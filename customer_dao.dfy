/** The decisions of the customer data access object: the pagination envelope
    built around a fetched page of rows, the default page cursor, and how the
    number of affected rows decides what `delete` and `update` return.
    The database is not modelled: a query's answer (the rows of a page, the
    `count(*)` of the table, the number of rows a statement affected) is a
    parameter. */
module CustomerDao {
  import opened Java
  import opened JavaInteger

  /** One row of the `customer` table. */
  datatype Customer = Customer(
    id: int,
    firstName: string,
    lastName: string,
    gender: string,
    email: string,
    address: string,
    phone: string,
    createdDate: int)

  datatype JavaException = NumberFormatException

  /** A Java call either returns a value or throws. */
  datatype Outcome<R> = Returned(value: R) | Threw(exception: JavaException)

  /** The page envelope. A field the code leaves unset is `None`; the
      cursors are decimal strings. */
  datatype ResponseList = ResponseList(
    items: Option<seq<Customer>>,
    nextCursor: Option<string>,
    reverseCursor: Option<string>,
    total: Option<int>,
    limit: Option<int>)

  /** One run of the pagination calculator: what it returned or threw, and
      whether it issued the table's `count(*)` query on the way. */
  datatype PageCall = PageCall(countQueried: bool, outcome: Outcome<ResponseList>)

  /** The first-page test is a comparison of strings, not of numbers. */
  predicate IsFirstPageKey(cursorKey: string) {
    cursorKey == "0"
  }

  predicate HasItems(items: Option<seq<Customer>>) {
    items.Some? && |items.value| > 0
  }

  /** A Java collection never reports more than `Integer.MAX_VALUE` elements. */
  predicate SizeFits(items: Option<seq<Customer>>) {
    items.Some? ==> |items.value| <= MAX_INT
  }

  /** The four-argument `populatePages`: `dbCount` is what the `count(*)`
      query would answer, consulted only when no `totalCount` is supplied. */
  function PopulatePages(items: Option<seq<Customer>>, pageSize: Int32, cursorKey: string,
                         totalCount: Option<Int32>, dbCount: Int32): (r: PageCall)
    requires SizeFits(items)
    // nothing to paginate: the items come back alone and no count is taken
    ensures !HasItems(items) ==>
              r == PageCall(false, Returned(ResponseList(items, None, None, None, None)))
    // otherwise the count query runs exactly when no total was supplied
    ensures HasItems(items) ==> r.countQueried == totalCount.None?
    // a cursor that is not a Java int numeral throws
    ensures HasItems(items) ==> (r.outcome.Threw? <==> ParseInt(cursorKey).None?)
    ensures r.outcome.Returned? ==> r.outcome.value.items == items
    // the limit is the number of items returned, and a total is always reported
    ensures HasItems(items) && r.outcome.Returned? ==>
              r.outcome.value.limit == Some(|items.value|) && r.outcome.value.total.Some?
  {
    if !HasItems(items) then
      PageCall(false, Returned(ResponseList(items, None, None, None, None)))
    else
      var size: Int32 := |items.value|;
      var counted := if totalCount.None? then dbCount else totalCount.value;
      var total := if IsFirstPageKey(cursorKey) && size < pageSize then size else counted;
      match ParseInt(cursorKey)
      case None => PageCall(totalCount.None?, Threw(NumberFormatException))
      case Some(offset) =>
        var next :=
          if size == pageSize && Add(offset, size) < total
          then Some(IntToString(Add(offset, size))) else None;
        var reverse :=
          if !IsFirstPageKey(cursorKey)
          then Some(IntToString(Abs(Sub(offset, pageSize)))) else None;
        PageCall(totalCount.None?, Returned(ResponseList(items, next, reverse, Some(total), Some(size))))
  }

  /** The three-argument `populatePages`: no total is supplied, so the table
      is counted whenever there is something to paginate. */
  function PopulatePagesCounting(items: Option<seq<Customer>>, pageSize: Int32, cursorKey: string,
                                 dbCount: Int32): (r: PageCall)
    requires SizeFits(items)
    ensures r.countQueried <==> HasItems(items)
    ensures r.outcome.Returned? && HasItems(items) && !(IsFirstPageKey(cursorKey) && |items.value| < pageSize) ==>
              r.outcome.value.total == Some(dbCount)
  {
    PopulatePages(items, pageSize, cursorKey, None, dbCount)
  }

  /** `getPage`: `rows` is what the page query returned; an absent offset
      means the first page. */
  function GetPage(pagesize: Int32, offset: Option<string>, rows: seq<Customer>, dbCount: Int32): (r: PageCall)
    requires |rows| <= MAX_INT
    ensures offset.None? ==> r == PopulatePagesCounting(Some(rows), pagesize, "0", dbCount)
    ensures offset.Some? ==> r == PopulatePagesCounting(Some(rows), pagesize, offset.value, dbCount)
    ensures r.countQueried <==> |rows| > 0
    ensures offset.None? && |rows| > 0 ==>
              r.outcome.Returned? && r.outcome.value.reverseCursor.None?
  {
    var cursorKey := if offset.None? then "0" else offset.value;
    assert offset.None? ==> ParseInt(cursorKey) == Some(0);
    PopulatePagesCounting(Some(rows), pagesize, cursorKey, dbCount)
  }

  /** `delete`: the id comes back only when exactly one row was deleted. */
  function Delete(id: int, affectedRows: int): (r: Option<int>)
    ensures r.Some? <==> affectedRows == 1
    ensures r.Some? ==> r.value == id
  {
    if affectedRows == 1 then Some(id) else None
  }

  /** `update`: the customer comes back only when exactly one row was updated. */
  function Update(customer: Customer, affectedRows: int): (r: Option<Customer>)
    ensures r.Some? <==> affectedRows == 1
    ensures r.Some? ==> r.value == customer
  {
    if affectedRows == 1 then Some(customer) else None
  }

  // ----- Properties of the pagination calculator -----

  /** Supplied total versus counted total, when the short-first-page rule does not apply. */
  lemma TotalSource(items: Option<seq<Customer>>, pageSize: Int32, cursorKey: string,
                    totalCount: Option<Int32>, dbCount: Int32)
    requires SizeFits(items) && HasItems(items)
    requires !(IsFirstPageKey(cursorKey) && |items.value| < pageSize)
    ensures var r := PopulatePages(items, pageSize, cursorKey, totalCount, dbCount);
            r.countQueried == totalCount.None? &&
            (r.outcome.Returned? ==>
               r.outcome.value.total == Some(if totalCount.Some? then totalCount.value else dbCount))
  {
  }

  /** A first page shorter than the page size reports its own length as the
      total, whatever the supplied or counted total says. */
  lemma ShortFirstPageTotal(items: Option<seq<Customer>>, pageSize: Int32,
                            totalCount: Option<Int32>, dbCount: Int32)
    requires SizeFits(items) && HasItems(items) && |items.value| < pageSize
    ensures var r := PopulatePages(items, pageSize, "0", totalCount, dbCount);
            r.outcome.Returned? && r.outcome.value.total == Some(|items.value|)
            && r.outcome.value.nextCursor.None? && r.outcome.value.reverseCursor.None?
  {
  }

  /** The forward cursor exists exactly when the page is full and the next
      offset (in `int` arithmetic) is below the total; it spells that offset. */
  lemma ForwardCursorRule(items: Option<seq<Customer>>, pageSize: Int32, cursorKey: string,
                          totalCount: Option<Int32>, dbCount: Int32, offset: Int32)
    requires SizeFits(items) && HasItems(items) && ParseInt(cursorKey) == Some(offset)
    ensures var r := PopulatePages(items, pageSize, cursorKey, totalCount, dbCount);
            var size := |items.value|;
            r.outcome.Returned? &&
            (r.outcome.value.nextCursor.Some? <==>
               size == pageSize && Add(offset, size) < r.outcome.value.total.value) &&
            (r.outcome.value.nextCursor.Some? ==>
               && ParseInt(r.outcome.value.nextCursor.value) == Some(Add(offset, size))
               && IsCanonical(r.outcome.value.nextCursor.value))
  {
    var size: Int32 := |items.value|;
    ParseIntToString(Add(offset, size));
    IntToStringIsCanonical(Add(offset, size));
  }

  /** Without overflow the forward cursor lies strictly between the current
      offset and the total. */
  lemma ForwardCursorBounds(items: Option<seq<Customer>>, pageSize: Int32, cursorKey: string,
                            totalCount: Option<Int32>, dbCount: Int32, offset: Int32)
    requires SizeFits(items) && HasItems(items) && ParseInt(cursorKey) == Some(offset)
    requires offset + |items.value| <= MAX_INT
    ensures var r := PopulatePages(items, pageSize, cursorKey, totalCount, dbCount);
            r.outcome.Returned? && r.outcome.value.nextCursor.Some? ==>
              && ParseInt(r.outcome.value.nextCursor.value) == Some(offset + |items.value|)
              && offset < offset + |items.value| < r.outcome.value.total.value
  {
    var size: Int32 := |items.value|;
    assert Add(offset, size) == offset + size;
    ParseIntToString(Add(offset, size));
  }

  /** A page with fewer items than the page size has no forward cursor. */
  lemma PartialPageHasNoForwardCursor(items: Option<seq<Customer>>, pageSize: Int32, cursorKey: string,
                                      totalCount: Option<Int32>, dbCount: Int32)
    requires SizeFits(items) && HasItems(items) && |items.value| < pageSize
    ensures var r := PopulatePages(items, pageSize, cursorKey, totalCount, dbCount);
            r.outcome.Returned? ==> r.outcome.value.nextCursor.None?
  {
  }

  /** The backward cursor exists exactly off the `"0"` page; it spells
      `Math.abs(offset - pageSize)`, which without overflow is the
      non-negative distance between the two. */
  lemma BackwardCursorRule(items: Option<seq<Customer>>, pageSize: Int32, cursorKey: string,
                           totalCount: Option<Int32>, dbCount: Int32, offset: Int32)
    requires SizeFits(items) && HasItems(items) && ParseInt(cursorKey) == Some(offset)
    ensures var r := PopulatePages(items, pageSize, cursorKey, totalCount, dbCount);
            r.outcome.Returned? &&
            (r.outcome.value.reverseCursor.Some? <==> !IsFirstPageKey(cursorKey)) &&
            (r.outcome.value.reverseCursor.Some? ==>
               && ParseInt(r.outcome.value.reverseCursor.value) == Some(Abs(Sub(offset, pageSize)))
               && IsCanonical(r.outcome.value.reverseCursor.value)) &&
            (r.outcome.value.reverseCursor.Some? && MIN_INT < offset - pageSize <= MAX_INT ==>
               ParseInt(r.outcome.value.reverseCursor.value) ==
                 Some(if offset >= pageSize then offset - pageSize else pageSize - offset))
  {
    ParseIntToString(Abs(Sub(offset, pageSize)));
    IntToStringIsCanonical(Abs(Sub(offset, pageSize)));
  }

  /** A cursor that is not a signed run of digits makes a non-empty page throw. */
  lemma NonNumeralThrows(items: Option<seq<Customer>>, pageSize: Int32, cursorKey: string,
                         totalCount: Option<Int32>, dbCount: Int32)
    requires SizeFits(items) && HasItems(items) && !IsNumeral(cursorKey)
    ensures PopulatePages(items, pageSize, cursorKey, totalCount, dbCount).outcome.Threw?
  {
  }

  /** For a cursor spelled as `Integer.toString` spells numbers, the string
      test for the first page agrees with the offset being zero. */
  lemma FirstPageKeyIsZeroOffset(cursorKey: string, offset: Int32)
    requires IsCanonical(cursorKey) && ParseInt(cursorKey) == Some(offset)
    ensures IsFirstPageKey(cursorKey) <==> offset == 0
  {
    CanonicalZero(cursorKey, offset);
  }

  /** A non-canonical zero such as `"00"` is read as offset zero but is not
      the first page: it gets a backward cursor and no short-page total. */
  lemma PaddedZeroIsNotFirstPage(items: Option<seq<Customer>>, pageSize: Int32,
                                 totalCount: Option<Int32>, dbCount: Int32)
    requires SizeFits(items) && HasItems(items) && pageSize > 0
    ensures var r := PopulatePages(items, pageSize, "00", totalCount, dbCount);
            ParseInt("00") == Some(0) &&
            r.outcome.Returned? &&
            r.outcome.value.reverseCursor == Some(IntToString(pageSize)) &&
            r.outcome.value.total == Some(if totalCount.Some? then totalCount.value else dbCount)
  {
    assert "00"[..1] == "0";
    assert ParseInt("00") == Some(0);
  }

  /** Following the forward cursor of a page at a non-negative offset, the
      next page's backward cursor leads back to that offset, spelled
      canonically. This holds even when the next offset wraps past
      `Integer.MAX_VALUE`: the wrapped key is negative, hence not `"0"`,
      and `int` subtraction undoes the wrapped addition. */
  lemma ForwardThenBackward(items: Option<seq<Customer>>, pageSize: Int32, cursorKey: string,
                            totalCount: Option<Int32>, dbCount: Int32, offset: Int32,
                            nextItems: Option<seq<Customer>>, nextTotalCount: Option<Int32>)
    requires SizeFits(items) && HasItems(items) && ParseInt(cursorKey) == Some(offset)
    requires offset >= 0
    requires SizeFits(nextItems) && HasItems(nextItems)
    requires PopulatePages(items, pageSize, cursorKey, totalCount, dbCount).outcome.Returned?
    requires PopulatePages(items, pageSize, cursorKey, totalCount, dbCount).outcome.value.nextCursor.Some?
    ensures var nextKey := PopulatePages(items, pageSize, cursorKey, totalCount, dbCount).outcome.value.nextCursor.value;
            var back := PopulatePages(nextItems, pageSize, nextKey, nextTotalCount, dbCount);
            back.outcome.Returned? && back.outcome.value.reverseCursor == Some(IntToString(offset))
  {
    var size: Int32 := |items.value|;
    var nextKey := PopulatePages(items, pageSize, cursorKey, totalCount, dbCount).outcome.value.nextCursor.value;
    assert size == pageSize;
    var next := Add(offset, size);
    assert nextKey == IntToString(next);
    assert next != 0;
    ParseIntToString(next);
    IntToStringIsCanonical(next);
    CanonicalZero(nextKey, next);
    SubUndoesAdd(offset, size);
  }

  /** Past `Integer.MAX_VALUE` the next offset wraps around: a full page near
      the top of the range gets a negative forward cursor whenever the total
      is not negative. */
  lemma ForwardCursorWraps(items: Option<seq<Customer>>, pageSize: Int32, cursorKey: string,
                           totalCount: Option<Int32>, dbCount: Int32, offset: Int32)
    requires SizeFits(items) && HasItems(items) && ParseInt(cursorKey) == Some(offset)
    requires |items.value| == pageSize && offset + pageSize > MAX_INT
    requires (if totalCount.Some? then totalCount.value else dbCount) >= 0
    ensures var r := PopulatePages(items, pageSize, cursorKey, totalCount, dbCount);
            r.outcome.Returned? && r.outcome.value.nextCursor.Some? &&
            ParseInt(r.outcome.value.nextCursor.value) == Some(offset + pageSize - TWO_POW_32) &&
            offset + pageSize - TWO_POW_32 < 0
  {
    var size: Int32 := |items.value|;
    var wrapped := Add(offset, size);
    assert wrapped == offset + size - TWO_POW_32 && wrapped < 0;
    assert offset != 0;
    assert !IsFirstPageKey(cursorKey);
    var r := PopulatePages(items, pageSize, cursorKey, totalCount, dbCount);
    assert r.outcome.value.total == Some(if totalCount.Some? then totalCount.value else dbCount);
    assert r.outcome.value.nextCursor == Some(IntToString(wrapped));
    ParseIntToString(wrapped);
  }

  /** Three concrete pages of size 10: a table of 25 rows read from offset 0
      and from offset 20, and a table of 3 rows read from offset 0. */
  lemma PageExamples(c: Customer)
    ensures var r := PopulatePagesCounting(Some(seq(10, _ => c)), 10, "0", 25);
            r.countQueried && r.outcome == Returned(ResponseList(Some(seq(10, _ => c)), Some("10"), None, Some(25), Some(10)))
    ensures var r := PopulatePagesCounting(Some(seq(5, _ => c)), 10, "20", 25);
            r.countQueried && r.outcome == Returned(ResponseList(Some(seq(5, _ => c)), None, Some("10"), Some(25), Some(5)))
    ensures var r := PopulatePagesCounting(Some(seq(3, _ => c)), 10, "0", 25);
            r.countQueried && r.outcome == Returned(ResponseList(Some(seq(3, _ => c)), None, None, Some(3), Some(3)))
  {
    assert ParseInt("0") == Some(0);
    assert "20"[..1] == "2" && ParseInt("20") == Some(20);
    assert IntToString(10) == "10";
  }
}
