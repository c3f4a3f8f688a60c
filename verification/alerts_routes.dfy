/** `GET /` and `POST /` of the alerts routes, both behind the auth
    middleware and neither with a role check. A query that throws is the
    parameter `fails`; `NOW()` is the parameter `now`. */
module AlertsRoutes {
  import opened Common
  import opened Seqs
  import opened Sorting
  import opened Store

  const AlertLimit := 100

  /** `ORDER BY created_at DESC` */
  predicate NewerAlertFirst(a: AlertRow, b: AlertRow) { a.createdAt >= b.createdAt }

  lemma NewerAlertFirstOrders()
    ensures TotalPreorder(NewerAlertFirst)
  {
  }

  /** `SELECT * FROM alerts ORDER BY created_at DESC LIMIT 100` */
  function LatestAlerts(alerts: seq<AlertRow>): seq<AlertRow>
  {
    Take(SortBy(alerts, NewerAlertFirst), AlertLimit)
  }

  /** `GET /`: the caller's identity plays no part in the answer. */
  function ListAlerts(user: Claims, alerts: seq<AlertRow>, fails: bool): (r: Reply<seq<AlertRow>>)
    ensures r.Error? <==> fails
    ensures r.Error? ==> r == Error(500, ServerError)
    ensures r.Ok? ==> |r.body| == Min(AlertLimit, |alerts|)
  {
    if fails then Error(500, ServerError) else Ok(LatestAlerts(alerts))
  }

  /** The list: at most a hundred alerts of the table, newest first, and no
      alert left out is newer than one listed. */
  lemma LatestAlertsCorrect(alerts: seq<AlertRow>)
    ensures |LatestAlerts(alerts)| == Min(AlertLimit, |alerts|)
    ensures SortedBy(LatestAlerts(alerts), NewerAlertFirst)
    ensures forall a :: a in LatestAlerts(alerts) ==> a in alerts
    ensures forall a, b :: b in alerts && b !in LatestAlerts(alerts) && a in LatestAlerts(alerts) ==>
      a.createdAt >= b.createdAt
  {
    NewerAlertFirstOrders();
    FirstOfSorted(alerts, AlertLimit, NewerAlertFirst);
    var t := LatestAlerts(alerts);
    assert t == Take(SortBy(alerts, NewerAlertFirst), AlertLimit);
    forall a, b | b in alerts && b !in t && a in t
      ensures a.createdAt >= b.createdAt
    {
      assert NewerAlertFirst(a, b);
    }
  }

  /** Nothing narrows the list to the caller's tenant: a tenant caller is
      answered, and while the table holds at most a hundred alerts it
      receives every one of them, whichever tenant's logs they came from. */
  lemma TenantSeesEveryAlert(user: Claims, alerts: seq<AlertRow>)
    requires user.role == "tenant"
    ensures ListAlerts(user, alerts, false).Ok?
    ensures |alerts| <= AlertLimit ==> multiset(ListAlerts(user, alerts, false).body) == multiset(alerts)
  {
    if |alerts| <= AlertLimit {
      assert Take(SortBy(alerts, NewerAlertFirst), AlertLimit) == SortBy(alerts, NewerAlertFirst);
    }
  }

  /** `POST /`: inserts one alert stamped `now` and answers its
      AUTO_INCREMENT id; on a failed insert the table is unchanged. */
  method PostAlert(db: Database, alertType: string, message: string, ipAddress: Option<string>,
                   details: Value, now: int, fails: bool) returns (r: Reply<nat>)
    requires db.Valid()
    modifies db
    ensures db.Valid()
    ensures db.logs == old(db.logs) && db.tenants == old(db.tenants) && db.sources == old(db.sources)
    ensures db.users == old(db.users) && db.nextUserId == old(db.nextUserId)
    ensures r.Error? <==> fails
    ensures r.Error? ==>
      r == Error(500, ServerError) && db.alerts == old(db.alerts) && db.nextAlertId == old(db.nextAlertId)
    ensures r.Ok? ==> r.body == old(db.nextAlertId) && db.nextAlertId == old(db.nextAlertId) + 1
    ensures r.Ok? ==>
      db.alerts == old(db.alerts) + [AlertRow(r.body, alertType, message, ipAddress, Posted(details), now)]
    ensures r.Ok? ==> forall a :: a in old(db.alerts) ==> a.id != r.body
  {
    if fails {
      return Error(500, ServerError);
    }
    var id := db.nextAlertId;
    db.alerts := db.alerts + [AlertRow(id, alertType, message, ipAddress, Posted(details), now)];
    db.nextAlertId := id + 1;
    r := Ok(id);
  }

  /** An alert posted later than every stored alert is in the next list. */
  lemma PostedAlertListed(alerts: seq<AlertRow>, posted: AlertRow)
    requires forall a :: a in alerts ==> a.createdAt < posted.createdAt
    ensures posted in LatestAlerts(alerts + [posted])
  {
    var all := alerts + [posted];
    LatestAlertsCorrect(all);
    var t := LatestAlerts(all);
    var first := t[0];
    assert first in all;
    assert first == posted || first.createdAt < posted.createdAt;
  }
}
