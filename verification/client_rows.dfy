/** The rows the pages receive from the API, as JavaScript objects, and what
    the data and alerts pages compute from them on every render: the search
    box filter, the page count, the slice shown and the range caption. */
module ClientRows {
  import opened Common
  import opened Seqs

  /** A row as the page holds it: its properties by name. */
  type Row = map<string, Value>

  /** `row.key`, with a missing property (`undefined`) read as `null`. The
      two agree in truthiness, `===` with a string and `?.`; they differ in
      `new Date(...)`, where `undefined` gives an Invalid Date and `null`
      the epoch, so dates are read from the row itself (`RowDate`). */
  function Field(row: Row, key: string): Value
  {
    if key in row then row[key] else Null
  }

  /** The dictionary key each row contributes to a `forEach` that counts,
      `None` for a row it skips. */
  function KeysOf(rows: seq<Row>, key: Row -> Option<string>): (r: seq<Option<string>>)
    ensures |r| == |rows| && forall i :: 0 <= i < |rows| ==> r[i] == key(rows[i])
  {
    seq(|rows|, i requires 0 <= i < |rows| => key(rows[i]))
  }

  /** `if (active) filtered = filtered.filter(p)`: one step of a filter
      panel's chain; it keeps rows in their order. */
  function Narrow(rows: seq<Row>, active: bool, p: Row -> bool): (r: seq<Row>)
    ensures Subseq(r, rows)
  {
    if active then
      FilterIsSubseq(rows, p);
      Filter(rows, p)
    else
      SubseqRefl(rows);
      rows
  }

  /** A step treats the two halves of a list separately. */
  lemma NarrowAppend(a: seq<Row>, b: seq<Row>, active: bool, p: Row -> bool)
    ensures Narrow(a + b, active, p) == Narrow(a, active, p) + Narrow(b, active, p)
  {
    if active {
      FilterAppend(a, b, p);
    }
  }

  /** A step keeps exactly the rows that satisfy its test, or all of them
      when it is not active. */
  lemma NarrowMember(rows: seq<Row>, active: bool, p: Row -> bool, row: Row)
    ensures row in Narrow(rows, active, p) <==> row in rows && (!active || p(row))
  {
    if active {
      FilterMembers(rows, p, row);
    }
  }

  // ---------------------------------------------------------------------------
  // The search box

  /** `!searchTerm || Object.values(row).some(value => value &&
      value.toString().toLowerCase().includes(searchTerm.toLowerCase()))` */
  predicate SearchHit(term: string, row: Row)
  {
    term == "" || exists key :: key in row && Truthy(row[key]) && IncludesIgnoringCase(ToStr(row[key]), term)
  }

  function Hits(term: string): Row -> bool { (row: Row) => SearchHit(term, row) }

  /** The rows the search keeps, in their order. */
  function Search(rows: seq<Row>, term: string): (r: seq<Row>)
    ensures forall row :: row in r <==> row in rows && SearchHit(term, row)
    ensures Subseq(r, rows)
  {
    FilterIsSubseq(rows, Hits(term));
    forall row ensures row in Filter(rows, Hits(term)) <==> row in rows && SearchHit(term, row) {
      FilterMembers(rows, Hits(term), row);
    }
    Filter(rows, Hits(term))
  }

  /** An empty search keeps every row. */
  lemma EmptySearchKeepsAll(rows: seq<Row>)
    ensures Search(rows, "") == rows
  {
    FilterAllKept(rows, Hits(""));
  }

  /** A property that is `0`, `false`, `""` or `null` never matches, even when
      its text contains the term: `{count: 0}` is not found by "0". */
  lemma FalsyNeverMatches(key: string)
    ensures !SearchHit("0", map[key := Num(0)])
  {
  }

  /** Upper-case and lower-case letters match each other. */
  lemma SearchIgnoresCase(key: string)
    ensures SearchHit("SSH", map[key := Str("ssh")])
  {
    assert Lower("SSH") == "ssh";
    assert Lower("ssh") == "ssh";
    assert OccursAt("ssh", "ssh", 0);
    var row := map[key := Str("ssh")];
    assert key in row && Truthy(row[key]) && IncludesIgnoringCase(ToStr(row[key]), "SSH");
  }

  // ---------------------------------------------------------------------------
  // Pages

  /** `Math.ceil(n / pageSize)` */
  function TotalPages(n: nat, pageSize: nat): (r: nat)
    requires pageSize > 0
    ensures (r == 0) == (n == 0)
    ensures n == 0 || (r - 1) * pageSize < n <= r * pageSize
  {
    var r := (n + pageSize - 1) / pageSize;
    DivBounds(n + pageSize - 1, pageSize);
    MulPred(r, pageSize);
    r
  }

  lemma DivBounds(m: nat, d: nat)
    requires d > 0
    ensures (m / d) * d <= m < (m / d) * d + d
  {
  }

  lemma MulPred(k: int, d: nat)
    ensures (k - 1) * d == k * d - d
  {
  }

  lemma MulMono(a: int, b: int, d: nat)
    requires a <= b
    ensures a * d <= b * d
  {
  }

  /** `(currentPage - 1) * pageSize` */
  function StartIndex(page: int, pageSize: nat): int { (page - 1) * pageSize }

  /** `slice` with two non-negative arguments. */
  lemma SliceFromZero<T>(s: seq<T>, a: nat, b: nat)
    requires a <= b
    ensures JsSlice(s, a, b) == s[Min(a, |s|)..Min(b, |s|)]
  {
  }

  /** `rows.slice(start, start + size)`: never more than `size` rows, even
      for a negative `start`. */
  function Window<T>(rows: seq<T>, start: int, size: nat): (r: seq<T>)
    ensures |r| <= size
  {
    JsSlice(rows, start, start + size)
  }

  /** `rows.slice(startIndex, endIndex)`, the rows the page shows. */
  function PageOf<T>(rows: seq<T>, page: int, pageSize: nat): seq<T>
  {
    Window(rows, StartIndex(page, pageSize), pageSize)
  }

  /** Pages `1..k` one after the other. */
  function PagesUpTo<T>(rows: seq<T>, k: nat, pageSize: nat): seq<T>
  {
    if k == 0 then [] else PagesUpTo(rows, k - 1, pageSize) + PageOf(rows, k, pageSize)
  }

  /** The number of rows pages `1..k` can hold, `k * pageSize`, added up
      one page at a time. */
  function Capacity(k: nat, pageSize: nat): nat
  {
    if k == 0 then 0 else Capacity(k - 1, pageSize) + pageSize
  }

  lemma {:induction false} CapacityIsProduct(k: nat, pageSize: nat)
    ensures Capacity(k, pageSize) == k * pageSize
  {
    if k > 0 {
      CapacityIsProduct(k - 1, pageSize);
      MulPred(k, pageSize);
    }
  }

  /** Page `k` is the slice between the capacities of pages `1..k-1` and of
      pages `1..k`. */
  lemma PageBetween<T>(rows: seq<T>, k: nat, pageSize: nat)
    requires k > 0
    ensures PageOf(rows, k, pageSize) ==
      rows[Min(Capacity(k - 1, pageSize), |rows|)..Min(Capacity(k, pageSize), |rows|)]
  {
    CapacityIsProduct(k - 1, pageSize);
    SliceFromZero(rows, Capacity(k - 1, pageSize), Capacity(k, pageSize));
  }

  lemma {:induction false} PagesUpToCapacity<T>(rows: seq<T>, k: nat, pageSize: nat)
    ensures PagesUpTo(rows, k, pageSize) == rows[..Min(Capacity(k, pageSize), |rows|)]
  {
    if k > 0 {
      PagesUpToCapacity(rows, k - 1, pageSize);
      PageBetween(rows, k, pageSize);
      PrefixJoin(rows, Min(Capacity(k - 1, pageSize), |rows|), Min(Capacity(k, pageSize), |rows|));
    }
  }

  lemma PrefixJoin<T>(s: seq<T>, i: nat, j: nat)
    requires i <= j <= |s|
    ensures s[..i] + s[i..j] == s[..j]
  {
  }

  /** Pages `1..k` are the first `k * pageSize` rows, or all of them. */
  lemma PagesUpToPrefix<T>(rows: seq<T>, k: nat, pageSize: nat)
    ensures PagesUpTo(rows, k, pageSize) == rows[..Min(k * pageSize, |rows|)]
  {
    PagesUpToCapacity(rows, k, pageSize);
    CapacityIsProduct(k, pageSize);
  }

  /** Pages `1..totalPages` list every row once, in order, and each of them
      holds at least one row. */
  lemma PagesCoverRows<T>(rows: seq<T>, pageSize: nat)
    requires pageSize > 0
    ensures PagesUpTo(rows, TotalPages(|rows|, pageSize), pageSize) == rows
    ensures forall p :: 1 <= p <= TotalPages(|rows|, pageSize) ==> |PageOf(rows, p, pageSize)| >= 1
  {
    var k := TotalPages(|rows|, pageSize);
    PagesUpToPrefix(rows, k, pageSize);
    assert rows[..Min(k * pageSize, |rows|)] == rows;
    forall p | 1 <= p <= k
      ensures |PageOf(rows, p, pageSize)| >= 1
    {
      PageStartsInside(rows, p, pageSize);
    }
  }

  /** A page up to the last starts inside the rows. */
  lemma PageStartsInside<T>(rows: seq<T>, page: int, pageSize: nat)
    requires pageSize > 0 && 1 <= page <= TotalPages(|rows|, pageSize)
    ensures 0 <= StartIndex(page, pageSize) < |rows|
    ensures PageOf(rows, page, pageSize) ==
      rows[StartIndex(page, pageSize)..Min(StartIndex(page, pageSize) + pageSize, |rows|)]
  {
    var k := TotalPages(|rows|, pageSize);
    MulMono(page - 1, k - 1, pageSize);
    MulMono(0, page - 1, pageSize);
    SliceFromZero(rows, StartIndex(page, pageSize), StartIndex(page, pageSize) + pageSize);
  }

  /** `startIndex + 1` and `Math.min(endIndex, n)`, the range caption. */
  function Caption(page: int, pageSize: nat, n: nat): (r: (int, int))
  {
    (StartIndex(page, pageSize) + 1, Min(StartIndex(page, pageSize) + pageSize, n))
  }

  /** On any page up to the last, the caption gives the one-based positions
      of the first and last row shown. */
  lemma CaptionMatchesPage<T>(rows: seq<T>, page: int, pageSize: nat)
    requires pageSize > 0 && 1 <= page <= TotalPages(|rows|, pageSize)
    ensures Caption(page, pageSize, |rows|).1 - Caption(page, pageSize, |rows|).0 + 1 == |PageOf(rows, page, pageSize)|
    ensures PageOf(rows, page, pageSize)[0] == rows[Caption(page, pageSize, |rows|).0 - 1]
  {
    PageStartsInside(rows, page, pageSize);
  }

  /** A page past the last shows no row: its start is beyond the rows. */
  lemma PastLastPageEmpty<T>(rows: seq<T>, page: int, pageSize: nat)
    requires pageSize > 0 && page > TotalPages(|rows|, pageSize)
    ensures PageOf(rows, page, pageSize) == []
  {
    var k := TotalPages(|rows|, pageSize);
    MulMono(k, page - 1, pageSize);
  }

  /** Where `currentPage` may stand for `n` rows: on a page, and on no page
      past the last while there are rows. */
  predicate PageInRange(page: int, n: nat, pageSize: nat)
    requires pageSize > 0
  {
    1 <= page && (n == 0 || page <= TotalPages(n, pageSize))
  }

  /** A page in range shows at least one row whenever there are rows. */
  lemma InRangeShowsRows<T>(rows: seq<T>, page: int, pageSize: nat)
    requires pageSize > 0 && PageInRange(page, |rows|, pageSize) && |rows| > 0
    ensures |PageOf(rows, page, pageSize)| >= 1
  {
    PageStartsInside(rows, page, pageSize);
  }

  // ---------------------------------------------------------------------------
  // The pagination bar

  /** The four buttons under the table: first, previous, next and last. */
  datatype PageButton = First | Previous | Next | Last

  /** The page after a click, for `n` rows. The bar is drawn only when there
      are rows; the first two buttons are disabled on page 1 and the last two
      when `currentPage === totalPages`, and a disabled button does nothing. */
  function PageAfter(b: PageButton, page: int, n: nat, pageSize: nat): (r: int)
    requires pageSize > 0
  {
    var total := TotalPages(n, pageSize);
    if n == 0 then page
    else match b
      case First => if page == 1 then page else 1
      case Previous => if page == 1 then page else page - 1
      case Next => if page == total then page else page + 1
      case Last => if page == total then page else total
  }

  /** From a page in range, every click lands on a page in range: the bar
      cannot leave the pages that hold rows. */
  lemma ClickKeepsRange(b: PageButton, page: int, n: nat, pageSize: nat)
    requires pageSize > 0
    ensures PageInRange(page, n, pageSize) ==> PageInRange(PageAfter(b, page, n, pageSize), n, pageSize)
  {
  }

  /** From a page past the last, "next" is enabled and moves further away,
      and "last" brings it back. */
  lemma ClickPastLast(page: int, n: nat, pageSize: nat)
    requires pageSize > 0 && n > 0 && page > TotalPages(n, pageSize)
    ensures PageAfter(Next, page, n, pageSize) == page + 1
    ensures PageAfter(Last, page, n, pageSize) == TotalPages(n, pageSize)
    ensures PageInRange(PageAfter(Last, page, n, pageSize), n, pageSize)
  {
  }

  /** With at most one page of rows, page 2 is empty. */
  lemma SecondPageEmpty<T>(rows: seq<T>, pageSize: nat)
    requires pageSize > 0 && |rows| <= pageSize
    ensures PageOf(rows, 2, pageSize) == []
  {
    var k := TotalPages(|rows|, pageSize);
    if k >= 2 {
      MulMono(1, k - 1, pageSize);
    }
    PastLastPageEmpty(rows, 2, pageSize);
  }

  /** Page 1 is always in range. */
  lemma FirstPageInRange(n: nat, pageSize: nat)
    requires pageSize > 0
    ensures PageInRange(1, n, pageSize)
  {
  }
}
