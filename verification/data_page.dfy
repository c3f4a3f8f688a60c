/** The data page: every loaded row behind a filter panel (dates, tenant,
    source), a search box over what the panel kept, and a table shown one
    page at a time. */
module DataPage {
  import opened Common
  import opened Seqs
  import opened ClientRows
  import opened DateBounds

  const DefaultPageSize := 25

  /** The filter panel's fields; an empty text is a filter that is not set. */
  datatype DataFilters = DataFilters(startDate: string, endDate: string, tenant: string, source: string)

  /** `log.tenant_name === filters.tenant` */
  predicate OfTenant(row: Row, tenant: string)
  {
    Field(row, "tenant_name") == Str(tenant)
  }

  /** `log.source_name === filters.source || log.log_type === filters.source`:
      network and firewall rows have no source name and are chosen by their
      type. */
  predicate FromSource(row: Row, source: string)
  {
    Field(row, "source_name") == Str(source) || Field(row, "log_type") == Str(source)
  }

  function TenantIs(tenant: string): Row -> bool { (row: Row) => OfTenant(row, tenant) }

  function SourceIs(source: string): Row -> bool { (row: Row) => FromSource(row, source) }

  /** The rows `handleFilterChange` keeps: the date steps, then the tenant,
      then the source. */
  function Chosen(all: seq<Row>, f: DataFilters, toDate: Value -> Option<Instant>): seq<Row>
  {
    var byDates := ByDateRange(all, f.startDate, f.endDate, toDate);
    var byTenant := Narrow(byDates, f.tenant != "", TenantIs(f.tenant));
    Narrow(byTenant, f.source != "", SourceIs(f.source))
  }

  /** A row passes every filter of the panel that is set. */
  predicate Kept(f: DataFilters, toDate: Value -> Option<Instant>, row: Row)
  {
    && InDateRange(f.startDate, f.endDate, toDate, row)
    && (f.tenant == "" || OfTenant(row, f.tenant))
    && (f.source == "" || FromSource(row, f.source))
  }

  /** The chain keeps exactly the loaded rows that pass every filter set: a
      tenant filter keeps the rows of that tenant name, a source filter the
      rows whose source name or type is that text. */
  lemma ChosenMember(all: seq<Row>, f: DataFilters, toDate: Value -> Option<Instant>, row: Row)
    ensures row in Chosen(all, f, toDate) <==> row in all && Kept(f, toDate, row)
  {
    var byDates := ByDateRange(all, f.startDate, f.endDate, toDate);
    var byTenant := Narrow(byDates, f.tenant != "", TenantIs(f.tenant));
    ByDateRangeMember(all, f.startDate, f.endDate, toDate, row);
    NarrowMember(byDates, f.tenant != "", TenantIs(f.tenant), row);
    NarrowMember(byTenant, f.source != "", SourceIs(f.source), row);
  }

  /** The chain keeps the rows it keeps in their loaded order. */
  lemma ChosenKeepsOrder(all: seq<Row>, f: DataFilters, toDate: Value -> Option<Instant>)
    ensures Subseq(Chosen(all, f, toDate), all)
  {
    var byDates := ByDateRange(all, f.startDate, f.endDate, toDate);
    var byTenant := Narrow(byDates, f.tenant != "", TenantIs(f.tenant));
    SubseqTrans(byTenant, byDates, all);
    SubseqTrans(Chosen(all, f, toDate), byTenant, all);
  }

  /** The panel's steps treat the two halves of a list separately. */
  lemma ChosenAppend(a: seq<Row>, b: seq<Row>, f: DataFilters, toDate: Value -> Option<Instant>)
    ensures Chosen(a + b, f, toDate) == Chosen(a, f, toDate) + Chosen(b, f, toDate)
  {
    var byDatesA := ByDateRange(a, f.startDate, f.endDate, toDate);
    var byDatesB := ByDateRange(b, f.startDate, f.endDate, toDate);
    ByDateRangeAppend(a, b, f.startDate, f.endDate, toDate);
    NarrowAppend(byDatesA, byDatesB, f.tenant != "", TenantIs(f.tenant));
    NarrowAppend(Narrow(byDatesA, f.tenant != "", TenantIs(f.tenant)), Narrow(byDatesB, f.tenant != "", TenantIs(f.tenant)),
                 f.source != "", SourceIs(f.source));
  }

  /** `Kept` as the test of a single `filter` call. */
  function KeptAll(f: DataFilters, toDate: Value -> Option<Instant>): Row -> bool
  {
    (row: Row) => Kept(f, toDate, row)
  }

  /** The panel's chain is one filter by the conjunction of the filters set:
      it keeps exactly the rows that pass, each as often as it was loaded, in
      loaded order. */
  lemma {:induction false} ChosenIsFilter(all: seq<Row>, f: DataFilters, toDate: Value -> Option<Instant>)
    ensures Chosen(all, f, toDate) == Filter(all, KeptAll(f, toDate))
  {
    if all != [] {
      var x := all[0];
      ChosenIsFilter(all[1..], f, toDate);
      assert all == [x] + all[1..];
      ChosenAppend([x], all[1..], f, toDate);
      ChosenKeepsOrder([x], f, toDate);
      SubseqOfOne(Chosen([x], f, toDate), x);
      ChosenMember([x], f, toDate, x);
    }
  }

  /** A firewall row, which has no source name, is kept by the source filter
      "firewall"; a row of another type named "firewall" is kept too. */
  lemma SourceMatchesType(row: Row)
    requires Field(row, "log_type") == Str("firewall")
    ensures FromSource(row, "firewall")
    ensures Kept(DataFilters("", "", "", "firewall"), (v: Value) => None, row)
  {
  }

  /** The data page's state. */
  class DataPage {
    var allLogs: seq<Row>
    var filteredLogs: seq<Row>
    var currentPage: int
    var pageSize: nat
    var searchTerm: string

    /** Every page size the selector offers is positive. */
    ghost predicate Valid()
      reads this
    {
      pageSize > 0
    }

    /** The state once `/api/logs` answered `logs`: everything shown, page 1
        of 25 rows, no search. */
    constructor (logs: seq<Row>)
      ensures Valid()
      ensures allLogs == logs && filteredLogs == logs
      ensures currentPage == 1 && pageSize == DefaultPageSize && searchTerm == ""
    {
      allLogs := logs;
      filteredLogs := logs;
      currentPage := 1;
      pageSize := DefaultPageSize;
      searchTerm := "";
    }

    /** `searchFilteredLogs`: what the panel kept that the search box finds. */
    function Found(): seq<Row>
      reads this
    {
      Search(filteredLogs, searchTerm)
    }

    /** `currentLogs`: the rows in the table. */
    function CurrentLogs(): (r: seq<Row>)
      reads this
      ensures |r| <= pageSize
    {
      PageOf(Found(), currentPage, pageSize)
    }

    /** The current page holds rows whenever the search found any. */
    ghost predicate InRange()
      reads this
      requires Valid()
    {
      PageInRange(currentPage, |Found()|, pageSize)
    }

    /** `handleFilterChange(filters)`: restarts from every loaded row, keeps
        what the panel's filters let through, and goes back to page 1 with the
        search cleared. */
    method HandleFilterChange(f: DataFilters, toDate: Value -> Option<Instant>)
      requires Valid()
      modifies this
      ensures Valid() && InRange()
      ensures allLogs == old(allLogs) && pageSize == old(pageSize)
      ensures filteredLogs == Chosen(allLogs, f, toDate)
      ensures currentPage == 1 && searchTerm == ""
    {
      var filtered := ByDateRange(allLogs, f.startDate, f.endDate, toDate);
      filtered := Narrow(filtered, f.tenant != "", TenantIs(f.tenant));
      filtered := Narrow(filtered, f.source != "", SourceIs(f.source));
      filteredLogs, currentPage, searchTerm := filtered, 1, "";
      FirstPageInRange(|Found()|, pageSize);
    }

    /** The page-size selector: a new size and page 1. */
    method SetPageSize(n: nat)
      requires Valid() && n > 0
      modifies this
      ensures Valid() && InRange()
      ensures pageSize == n && currentPage == 1
      ensures allLogs == old(allLogs) && filteredLogs == old(filteredLogs) && searchTerm == old(searchTerm)
    {
      pageSize, currentPage := n, 1;
      FirstPageInRange(|Found()|, pageSize);
    }

    /** Typing in the search box: a new term, and the page stays where it
        was, which may now be past the last page (with one page of rows found, page 2 is empty: `SecondPageEmpty`). */
    method SetSearchTerm(term: string)
      requires Valid()
      modifies this
      ensures Valid()
      ensures searchTerm == term
      ensures allLogs == old(allLogs) && filteredLogs == old(filteredLogs)
      ensures currentPage == old(currentPage) && pageSize == old(pageSize)
    {
      searchTerm := term;
    }

    /** A click on the pagination bar. */
    method Click(b: PageButton)
      requires Valid()
      modifies this
      ensures Valid()
      ensures currentPage == PageAfter(b, old(currentPage), |Found()|, pageSize)
      ensures old(InRange()) ==> InRange()
      ensures allLogs == old(allLogs) && filteredLogs == old(filteredLogs)
      ensures pageSize == old(pageSize) && searchTerm == old(searchTerm)
    {
      ClickKeepsRange(b, currentPage, |Found()|, pageSize);
      currentPage := PageAfter(b, currentPage, |Found()|, pageSize);
    }
  }
}
