/** The alerts page: the list `/api/alerts` answered, reloaded every ten
    seconds, with a search box and a table shown one page at a time. A fetch
    whose answer never arrives or is not JSON is the answer `Threw`. */
module AlertsPage {
  import opened Common
  import opened Seqs
  import opened ClientRows

  const DefaultPageSize := 10

  /** What `loadAlerts` gets back: the response's `ok`, and the body's
      `success` and `data` (`None` for a missing or falsy `data`). */
  datatype AlertsAnswer =
    | Answer(ok: bool, success: Value, data: Option<seq<Row>>)
    | Threw

  /** `alertsRes.ok && alertData.success` */
  predicate Accepted(a: AlertsAnswer)
  {
    a.Answer? && a.ok && Truthy(a.success)
  }

  /** The list after `loadAlerts`: the answer's `data || []` when it was
      accepted, the list it had otherwise. */
  function Reloaded(previous: seq<Row>, a: AlertsAnswer): seq<Row>
  {
    if Accepted(a) then
      match a.data
      case Some(rows) => rows
      case None => []
    else previous
  }

  /** The list changes only on an accepted answer, and an accepted answer
      without data empties it. */
  lemma ChangesOnlyWhenAccepted(previous: seq<Row>, a: AlertsAnswer)
    ensures Reloaded(previous, a) != previous ==> Accepted(a)
    ensures Accepted(a) && a.data.None? ==> Reloaded(previous, a) == []
  {
  }

  /** Once an answer is accepted, the list no longer depends on what was shown
      before; a refused answer or a thrown fetch keeps what was shown. */
  lemma ReloadForgetsPrevious(p1: seq<Row>, p2: seq<Row>, a: AlertsAnswer)
    ensures Accepted(a) ==> Reloaded(p1, a) == Reloaded(p2, a)
    ensures !Accepted(a) ==> Reloaded(p1, a) == p1 && Reloaded(p2, a) == p2
  {
  }

  /** A refusal is never taken for success: an answer with `ok` false, a
      `success` of `false`, `0`, `""` or `null`, or a thrown fetch keeps the
      list. */
  lemma RefusalKeepsList(previous: seq<Row>, ok: bool, success: Value, data: Option<seq<Row>>)
    requires !ok || !Truthy(success)
    ensures Reloaded(previous, Answer(ok, success, data)) == previous
    ensures Reloaded(previous, Threw) == previous
  {
  }

  /** The alerts page's state. */
  class AlertsPage {
    var alerts: seq<Row>
    var currentPage: int
    var pageSize: nat
    var searchTerm: string

    /** Every page size the selector offers is positive. */
    ghost predicate Valid()
      reads this
    {
      pageSize > 0
    }

    /** The state before the first load: no alerts, page 1 of 10, no search. */
    constructor ()
      ensures Valid()
      ensures alerts == [] && currentPage == 1 && pageSize == DefaultPageSize && searchTerm == ""
    {
      alerts := [];
      currentPage := 1;
      pageSize := DefaultPageSize;
      searchTerm := "";
    }

    /** `filteredAlerts`: the alerts the search box finds. */
    function Found(): seq<Row>
      reads this
    {
      Search(alerts, searchTerm)
    }

    /** `currentAlerts`: the alerts in the table. */
    function CurrentAlerts(): (r: seq<Row>)
      reads this
      ensures |r| <= pageSize
    {
      PageOf(Found(), currentPage, pageSize)
    }

    /** The current page holds alerts whenever the search found any. */
    ghost predicate InRange()
      reads this
      requires Valid()
    {
      PageInRange(currentPage, |Found()|, pageSize)
    }

    /** `loadAlerts(token)`, at mount and on every refresh: only the list
        changes, and only when the answer is accepted. The page stays where
        it was, so a shorter list can leave it past the last page. */
    method LoadAlerts(a: AlertsAnswer)
      requires Valid()
      modifies this
      ensures Valid()
      ensures alerts == Reloaded(old(alerts), a)
      ensures currentPage == old(currentPage) && pageSize == old(pageSize) && searchTerm == old(searchTerm)
    {
      if a.Answer? && a.ok && Truthy(a.success) {
        alerts := if a.data.Some? then a.data.value else [];
      }
    }

    /** Typing in the search box: a new term and page 1. */
    method SetSearchTerm(term: string)
      requires Valid()
      modifies this
      ensures Valid() && InRange()
      ensures searchTerm == term && currentPage == 1
      ensures alerts == old(alerts) && pageSize == old(pageSize)
    {
      searchTerm, currentPage := term, 1;
      FirstPageInRange(|Found()|, pageSize);
    }

    /** The page-size selector: a new size and page 1. */
    method SetPageSize(n: nat)
      requires Valid() && n > 0
      modifies this
      ensures Valid() && InRange()
      ensures pageSize == n && currentPage == 1
      ensures alerts == old(alerts) && searchTerm == old(searchTerm)
    {
      pageSize, currentPage := n, 1;
      FirstPageInRange(|Found()|, pageSize);
    }

    /** A click on the pagination bar. */
    method Click(b: PageButton)
      requires Valid()
      modifies this
      ensures Valid()
      ensures currentPage == PageAfter(b, old(currentPage), |Found()|, pageSize)
      ensures old(InRange()) ==> InRange()
      ensures alerts == old(alerts) && pageSize == old(pageSize) && searchTerm == old(searchTerm)
    {
      ClickKeepsRange(b, currentPage, |Found()|, pageSize);
      currentPage := PageAfter(b, currentPage, |Found()|, pageSize);
    }
  }
}
