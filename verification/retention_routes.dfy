/** `GET /stats` and `POST /cleanup`: admin only, behind the auth middleware,
    whose decoded payload is the parameter `user`. */
module RetentionRoutes {
  import opened Common
  import opened Seqs
  import opened Store
  import opened RetentionService

  const AccessDenied := "Access denied"
  const CleanupDone := "Manual cleanup completed"
  const Admin := "admin"

  /** The `retentionPolicy` and `stats` of a `/stats` answer. */
  datatype StatsBody = StatsBody(logRetentionDays: nat, alertRetentionDays: nat, stats: Option<SizeInfo>)

  /** `GET /stats`. The service answers `null` statistics instead of
      throwing, so the route's own 500 answer is never reached. */
  function GetStats(user: Claims, t: Tables, now: int, statsFail: bool): (r: Reply<StatsBody>)
    ensures r.Error? <==> user.role != Admin
    ensures r.Error? ==> r == Error(403, AccessDenied)
    ensures r.Ok? ==> r.body.logRetentionDays == 7 && r.body.alertRetentionDays == 30
    ensures r.Ok? ==> (r.body.stats.None? <==> statsFail)
  {
    if user.role != Admin then Error(403, AccessDenied)
    else Ok(StatsBody(RetentionLogDays, 30, DataSizeInfo(t, now, statsFail)))
  }

  /** The body of a `/cleanup` answer. */
  datatype CleanupBody = CleanupBody(success: bool, message: string, before: Option<SizeInfo>, after: Option<SizeInfo>)

  /** `POST /cleanup`: a snapshot, one manual cleanup that stops after
      `completed` DELETE statements, and a second snapshot. The cleanup
      swallows its own errors, so an admin always gets `success: true`. */
  method PostCleanup(db: Database, user: Claims, now: int, completed: nat,
                     beforeFails: bool, afterFails: bool) returns (r: Reply<CleanupBody>)
    requires db.Valid()
    modifies db
    ensures db.Valid()
    ensures db.tenants == old(db.tenants) && db.sources == old(db.sources) && db.users == old(db.users)
    ensures db.nextAlertId == old(db.nextAlertId) && db.nextUserId == old(db.nextUserId)
    ensures user.role != Admin ==>
      r == Error(403, AccessDenied) && db.logs == old(db.logs) && db.alerts == old(db.alerts)
    ensures user.role == Admin ==>
      Tables(db.logs, db.alerts) == Cleanup(Tables(old(db.logs), old(db.alerts)), now, completed)
    ensures user.role == Admin ==>
      r == Ok(CleanupBody(true, CleanupDone,
                          DataSizeInfo(Tables(old(db.logs), old(db.alerts)), now, beforeFails),
                          DataSizeInfo(Tables(db.logs, db.alerts), now, afterFails)))
  {
    if user.role != Admin {
      return Error(403, AccessDenied);
    }
    var before := DataSizeInfo(Tables(db.logs, db.alerts), now, beforeFails);
    ManualCleanup(db, now, completed);
    var after := DataSizeInfo(Tables(db.logs, db.alerts), now, afterFails);
    r := Ok(CleanupBody(true, CleanupDone, before, after));
  }

  /** What an admin's `/cleanup` reports when the run and both snapshots
      succeed: the recent logs stay, the old ones are gone, and the only
      logs `oldLogs` still counts are those without a `created_at`. */
  lemma CleanupReport(t: Tables, now: int)
    ensures DataSizeInfo(Cleanup(t, now, 3), now, false).value.recentLogs ==
      DataSizeInfo(t, now, false).value.recentLogs
    ensures DataSizeInfo(Cleanup(t, now, 3), now, false).value.oldLogs ==
      DataSizeInfo(t, now, false).value.oldLogs - Count(t.logs, IsOld(LogCutoff(now)))
  {
    CleanupCounts(t, now);
    OldLogsCounted(t, now);
  }
}
