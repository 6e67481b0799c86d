# Customer DAO pagination, modelled in Dafny

This project models the decision logic of the customer data access object of a
small Spring REST service (`CustomerDaoImpl`). The service lists, reads,
creates, updates and deletes rows of a `customer` table. It also serves the
table one page at a time.

The one computation in it is `populatePages`. It takes the rows fetched for a
page, the requested page size, the cursor (the zero-based offset as a decimal
string) and an optional precomputed total. From these it builds the response
envelope:

- the total,
- a forward cursor,
- a backward cursor,
- the limit (the number of items actually returned).

Beside it, the model covers two small decisions:

- `getPage` treats a missing offset as `"0"`;
- `delete` and `update` return a value only when exactly one row was affected.

The model has three modules:

- `Java` (`java.dfy`): nullable references as `Option`, and Java `int`
  arithmetic with explicit 32-bit wrap-around (`Add`, `Sub`, and
  `Abs`, where `Math.abs(Integer.MIN_VALUE)` stays negative).
- `JavaInteger` (`java_integer.dfy`): `Integer.parseInt` and `Integer.toString`
  over ASCII digits. `String.format("%s", n)` prints an `int` the way
  `Integer.toString` does. The module proves that parsing a printed number
  gives it back. It also proves that a canonical numeral is exactly what
  printing its value gives.
- `CustomerDao` (`customer_dao.dfy`): the page envelope and `populatePages`
  (both overloads), `getPage`, `delete`, `update`, and the properties of the
  pagination.

Database answers are parameters of the model:

- the rows a page query returned;
- the table's `count(*)`, passed as `dbCount`;
- the number of rows a statement affected.

Each run of the calculator reports whether it issued the count query
(`countQueried`). A cursor that `Integer.parseInt` rejects makes the call end
in `Threw(NumberFormatException)`. If no total was supplied, the count query
has already run by then: the count (line 81) is taken before the cursor is
first parsed (line 92).

The first-page test is the string comparison `"0".equals(cursorKey)`, not a
numeric test. For canonical numerals it agrees with "the offset is zero"
(`FirstPageKeyIsZeroOffset`). A padded zero such as `"00"` is read as offset 0,
yet it is treated as a later page (`PaddedZeroIsNotFirstPage`).

The model keeps the source's `int` overflow. A full page whose next offset
passes `Integer.MAX_VALUE` gets a negative forward cursor whenever the total
is not negative (`ForwardCursorWraps`). The bounds on the forward and backward cursors are
proved under a "no overflow" hypothesis.

The backward cursor is computed from the offset as `|offset - pageSize|`; it
is not remembered. After a forward step with the same page size it is the
previous offset (`ForwardThenBackward`), but below `pageSize` it misses it:
offset 5 with page size 10 yields `"5"`. `BackwardCursorRule` states this
behaviour as it is.

## Model

| member | source | states |
|---|---|---|
| `Java.Add` | src/main/java/com/rupp/spring/dao/CustomerDaoImpl.java:95-96 | `offset + items.size()` on `int`: the exact sum when it fits, otherwise the sum minus 2^32 (negative) or plus 2^32 |
| `Java.Sub` | src/main/java/com/rupp/spring/dao/CustomerDaoImpl.java:106 | `offset - pageSize` on `int`: the exact difference when it fits, otherwise wrapped by 2^32 |
| `Java.Abs` | src/main/java/com/rupp/spring/dao/CustomerDaoImpl.java:106 | `Math.abs`: non-negative and equal to the argument or its negation, except `abs(MIN_VALUE) == MIN_VALUE` |
| `Java.SubUndoesAdd` | src/main/java/com/rupp/spring/dao/CustomerDaoImpl.java:106 | `int` subtraction undoes `int` addition for all operands, overflow included |
| `JavaInteger.ParseInt` | src/main/java/com/rupp/spring/dao/CustomerDaoImpl.java:95 | `Integer.parseInt`: anything but an optional `-` or `+` followed by ASCII digits throws; an unsigned or `+` digit run reads as its value exactly when that fits in an `int`; a `-` digit run reads as the negated value exactly when that fits; a negative result needs a leading `-` |
| `JavaInteger.IntToString` | src/main/java/com/rupp/spring/dao/CustomerDaoImpl.java:96 | `String.format("%s", n)`: a non-empty string that starts with `-` exactly when `n` is negative, and is all digits otherwise |
| `JavaInteger.ParseIntToString` | src/main/java/com/rupp/spring/dao/CustomerDaoImpl.java:96 | a cursor printed with `String.format("%s", n)` parses back to `n`, for every `int` |
| `JavaInteger.IntToStringIsCanonical` | src/main/java/com/rupp/spring/dao/CustomerDaoImpl.java:107 | every printed cursor is a canonical numeral: `0`, or an optional `-` and digits without a leading zero |
| `JavaInteger.ToStringParseInt` | src/main/java/com/rupp/spring/dao/CustomerDaoImpl.java:92 | a canonical numeral is exactly the printed form of the value `Integer.parseInt` reads from it |
| `JavaInteger.CanonicalZero` | src/main/java/com/rupp/spring/dao/CustomerDaoImpl.java:86 | for a canonical numeral, being the string `"0"` is equivalent to denoting zero |
| `CustomerDao.PopulatePages` | src/main/java/com/rupp/spring/dao/CustomerDaoImpl.java:73-111 | a null or empty collection comes back alone: no cursors, no total, no limit, no count query. Otherwise the count query runs exactly when no total is supplied. The call throws exactly when the cursor is not an `int` numeral. The items are returned unchanged, the limit is the number of items, and a total is always set |
| `CustomerDao.PopulatePagesCounting` | src/main/java/com/rupp/spring/dao/CustomerDaoImpl.java:69-71 | the three-argument overload counts the table exactly when there are items, and reports that count as the total unless the short-first-page rule applies |
| `CustomerDao.GetPage` | src/main/java/com/rupp/spring/dao/CustomerDaoImpl.java:42-66 | a null offset behaves as `"0"`, so a non-empty page without an offset has no backward cursor; the count query runs exactly when rows came back |
| `CustomerDao.Delete` | src/main/java/com/rupp/spring/dao/CustomerDaoImpl.java:200-204 | returns the id exactly when one row was affected, otherwise null |
| `CustomerDao.Update` | src/main/java/com/rupp/spring/dao/CustomerDaoImpl.java:213-226 | returns the given customer exactly when one row was affected, otherwise null |
| `CustomerDao.TotalSource` | src/main/java/com/rupp/spring/dao/CustomerDaoImpl.java:79-84 | outside the short-first-page case the total is the supplied count if present, else the table's count; the count query runs exactly when none is supplied |
| `CustomerDao.ShortFirstPageTotal` | src/main/java/com/rupp/spring/dao/CustomerDaoImpl.java:86-88 | on the `"0"` page with fewer items than the page size, the total is the number of items whatever the supplied or counted total. That page has neither cursor |
| `CustomerDao.ForwardCursorRule` | src/main/java/com/rupp/spring/dao/CustomerDaoImpl.java:93-97 | the forward cursor is present exactly when the page is full and the `int` sum `offset + size` is below the total; it parses back to that sum and is spelled canonically, as `Integer.toString` spells it |
| `CustomerDao.ForwardCursorBounds` | src/main/java/com/rupp/spring/dao/CustomerDaoImpl.java:95-96 | without overflow, a present forward cursor parses to `offset + size`, strictly above the offset and strictly below the total |
| `CustomerDao.PartialPageHasNoForwardCursor` | src/main/java/com/rupp/spring/dao/CustomerDaoImpl.java:95 | a page with fewer items than the page size has no forward cursor |
| `CustomerDao.BackwardCursorRule` | src/main/java/com/rupp/spring/dao/CustomerDaoImpl.java:104-108 | the backward cursor is present exactly when the cursor is not the string `"0"`. It parses to `Math.abs(offset - pageSize)`, is spelled canonically, and without overflow is the non-negative distance between them |
| `CustomerDao.NonNumeralThrows` | src/main/java/com/rupp/spring/dao/CustomerDaoImpl.java:91-92 | a non-empty page whose cursor is not an optional sign followed by digits ends in `NumberFormatException` |
| `CustomerDao.FirstPageKeyIsZeroOffset` | src/main/java/com/rupp/spring/dao/CustomerDaoImpl.java:105 | for a canonical cursor, the string test `"0".equals(cursorKey)` holds exactly when the offset is zero |
| `CustomerDao.PaddedZeroIsNotFirstPage` | src/main/java/com/rupp/spring/dao/CustomerDaoImpl.java:86-108 | the cursor `"00"` parses to 0 but is not treated as the first page: it gets a backward cursor and the supplied or counted total |
| `CustomerDao.ForwardThenBackward` | src/main/java/com/rupp/spring/dao/CustomerDaoImpl.java:93-108 | following a forward cursor from any non-negative offset, with the same page size, onto a non-empty next page, that page's backward cursor is the canonical spelling of the original offset, including when the next offset wraps past `Integer.MAX_VALUE` |
| `CustomerDao.ForwardCursorWraps` | src/main/java/com/rupp/spring/dao/CustomerDaoImpl.java:95-96 | a full page whose next offset passes `Integer.MAX_VALUE` gets a forward cursor that parses to a negative number whenever the total is not negative |
| `CustomerDao.PageExamples` | src/main/java/com/rupp/spring/dao/CustomerDaoImpl.java:69-111 | pages of size 10: 25 rows from `"0"` gives total 25, forward `"10"`, no backward; from `"20"` with 5 rows gives no forward, backward `"10"`; 3 rows from `"0"` gives total 3 and no cursors |

## Left out

- JDBC access is not modelled: the page query, `count()`, `get`, `list` and `create`, the constructor and its `DataSource`. Only the answers of these calls appear, as parameters.
- SQL string building and the `RowMapper` closures are left out. They copy columns from a `ResultSet` and hold no decision. The `Customer` datatype stands for a mapped row, with the creation date as a number.
- `GetPage`: if the offset is not a number, the page query (`... OFFSET <offset>`) would fail in the database before the cursor is parsed. The model takes the rows as given, so it reports the `NumberFormatException` instead.
- A null `cursorKey` passed straight to `populatePages` is not modelled. Its only caller, `getPage`, replaces null with `"0"`.
- `JavaInteger.ParseInt` accepts ASCII digits only. Java's `Integer.parseInt` also accepts other Unicode decimal digits.
- The `ResponseList` builder's own defaults are not part of this model. Fields that the code does not set are `None`.
- SLF4J debug logging and the `System.out` message of `get` are left out. The parse inside the debug call is modelled, because it is where a bad cursor first throws.
- The web controller (`CustomerController`) is left out: request binding, the null-to-404 status choice and the hard-coded schema description.
