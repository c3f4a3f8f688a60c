/** The retention service: `cleanupOldLogs` deletes logs older than seven
    days, alerts older than thirty, then alerts whose IP no remaining log
    mentions; `getDataSizeInfo` counts rows; `manualCleanup` runs them in
    turn. Times are seconds, and "n days ago" is `now - n * Day`. */
module RetentionService {
  import opened Common
  import opened Seqs
  import opened Store

  const RetentionLogDays := 7
  const RetentionAlertDays := 30
  const Day := 24 * 60 * 60

  /** `getPastDateStr(days)` */
  function PastDate(now: int, days: nat): int { now - days * Day }

  function LogCutoff(now: int): int { PastDate(now, RetentionLogDays) }

  function AlertCutoff(now: int): int { PastDate(now, RetentionAlertDays) }

  // ---------------------------------------------------------------------------
  // The three DELETE statements

  /** `created_at < ?`: false for a `NULL` `created_at`. */
  predicate OldLog(l: LogRow, cutoff: int)
  {
    l.createdAt.Some? && l.createdAt.value < cutoff
  }

  predicate OldAlert(a: AlertRow, cutoff: int)
  {
    a.createdAt < cutoff
  }

  /** `l.src_ip = ip OR l.dst_ip = ip`; a `NULL` address equals nothing. */
  predicate Mentions(l: LogRow, ip: string)
  {
    l.srcIp == Some(ip) || l.dstIp == Some(ip)
  }

  /** `a.ip_address IS NOT NULL AND NOT EXISTS (...)` */
  predicate Orphan(a: AlertRow, logs: seq<LogRow>)
  {
    a.ipAddress.Some? && forall i :: 0 <= i < |logs| ==> !Mentions(logs[i], a.ipAddress.value)
  }

  function KeepLog(cutoff: int): LogRow -> bool { l => !OldLog(l, cutoff) }

  function KeepAlert(cutoff: int): AlertRow -> bool { a => !OldAlert(a, cutoff) }

  function NotOrphan(logs: seq<LogRow>): AlertRow -> bool { a => !Orphan(a, logs) }

  /** The two tables the cleanup touches. */
  datatype Tables = Tables(logs: seq<LogRow>, alerts: seq<AlertRow>)

  /** The tables after the first `completed` DELETE statements of one run at
      time `now` (three or more: all of them). Each statement sees the
      tables the previous one left. */
  function Cleanup(t: Tables, now: int, completed: nat): Tables
  {
    var logs := if completed >= 1 then Filter(t.logs, KeepLog(LogCutoff(now))) else t.logs;
    var young := if completed >= 2 then Filter(t.alerts, KeepAlert(AlertCutoff(now))) else t.alerts;
    var alerts := if completed >= 3 then Filter(young, NotOrphan(logs)) else young;
    Tables(logs, alerts)
  }

  /** Deleting rows keeps the remaining ids below the counter and distinct. */
  lemma {:induction false} FilterKeepsFresh(alerts: seq<AlertRow>, nextId: nat, p: AlertRow -> bool)
    requires AlertIdsFresh(alerts, nextId)
    ensures AlertIdsFresh(Filter(alerts, p), nextId)
  {
    if alerts != [] {
      FilterKeepsFresh(alerts[1..], nextId, p);
      var rest := Filter(alerts[1..], p);
      forall a | a in rest
        ensures a.id != alerts[0].id
      {
        var i :| 0 <= i < |alerts[1..]| && alerts[1..][i] == a;
        assert alerts[i + 1] == a;
      }
      if p(alerts[0]) {
        var r := Filter(alerts, p);
        assert r == [alerts[0]] + rest;
        forall j | 0 < j < |r|
          ensures r[0].id != r[j].id
        {
          assert r[j] in rest;
        }
      }
    }
  }

  /** `cleanupOldLogs` at time `now`. A statement that throws ends the run;
      its error is only logged and the earlier deletions stay. `OPTIMIZE
      TABLE` changes no rows. */
  method CleanupOldLogs(db: Database, now: int, completed: nat)
    requires db.Valid()
    modifies db
    ensures db.Valid()
    ensures db.tenants == old(db.tenants) && db.sources == old(db.sources) && db.users == old(db.users)
    ensures db.nextAlertId == old(db.nextAlertId) && db.nextUserId == old(db.nextUserId)
    ensures Tables(db.logs, db.alerts) == Cleanup(Tables(old(db.logs), old(db.alerts)), now, completed)
  {
    if completed == 0 {
      return;
    }
    db.logs := Filter(db.logs, KeepLog(LogCutoff(now)));
    if completed == 1 {
      return;
    }
    FilterKeepsFresh(db.alerts, db.nextAlertId, KeepAlert(AlertCutoff(now)));
    db.alerts := Filter(db.alerts, KeepAlert(AlertCutoff(now)));
    if completed == 2 {
      return;
    }
    FilterKeepsFresh(db.alerts, db.nextAlertId, NotOrphan(db.logs));
    db.alerts := Filter(db.alerts, NotOrphan(db.logs));
  }

  // ---------------------------------------------------------------------------
  // What a complete run leaves

  /** A complete run keeps exactly the logs that are not older than seven
      days (a `NULL` `created_at` is never old), and exactly the alerts that
      are not older than thirty days and are not orphans of the remaining
      logs; both tables keep their order. */
  lemma CleanupComplete(t: Tables, now: int, completed: nat)
    requires completed >= 3
    ensures forall l :: l in Cleanup(t, now, completed).logs <==> l in t.logs && !OldLog(l, LogCutoff(now))
    ensures forall a :: a in Cleanup(t, now, completed).alerts <==>
      a in t.alerts && !OldAlert(a, AlertCutoff(now)) && !Orphan(a, Cleanup(t, now, completed).logs)
    ensures Subseq(Cleanup(t, now, completed).logs, t.logs)
    ensures Subseq(Cleanup(t, now, completed).alerts, t.alerts)
  {
    var logs := Filter(t.logs, KeepLog(LogCutoff(now)));
    var young := Filter(t.alerts, KeepAlert(AlertCutoff(now)));
    forall l
      ensures l in logs <==> l in t.logs && !OldLog(l, LogCutoff(now))
    {
      FilterMembers(t.logs, KeepLog(LogCutoff(now)), l);
    }
    forall a
      ensures a in Filter(young, NotOrphan(logs)) <==>
        a in t.alerts && !OldAlert(a, AlertCutoff(now)) && !Orphan(a, logs)
    {
      FilterMembers(t.alerts, KeepAlert(AlertCutoff(now)), a);
      FilterMembers(young, NotOrphan(logs), a);
    }
    FilterIsSubseq(t.logs, KeepLog(LogCutoff(now)));
    FilterIsSubseq(t.alerts, KeepAlert(AlertCutoff(now)));
    FilterIsSubseq(young, NotOrphan(logs));
    SubseqTrans(Filter(young, NotOrphan(logs)), young, t.alerts);
  }

  /** After a complete run every remaining alert with an IP is about an IP
      that some remaining log mentions. */
  lemma NoOrphansLeft(t: Tables, now: int, completed: nat)
    requires completed >= 3
    ensures forall i :: 0 <= i < |Cleanup(t, now, completed).alerts| ==>
      !Orphan(Cleanup(t, now, completed).alerts[i], Cleanup(t, now, completed).logs)
  {
    CleanupComplete(t, now, completed);
  }

  /** An alert about an IP that only old logs mention goes with them, however
      recent the alert is. */
  lemma AlertFollowsItsLogs(t: Tables, now: int, a: AlertRow, completed: nat)
    requires completed >= 3 && a.ipAddress.Some?
    requires forall i :: 0 <= i < |t.logs| && Mentions(t.logs[i], a.ipAddress.value) ==>
      OldLog(t.logs[i], LogCutoff(now))
    ensures a !in Cleanup(t, now, completed).alerts
  {
    CleanupComplete(t, now, completed);
    var logs := Cleanup(t, now, completed).logs;
    forall i | 0 <= i < |logs|
      ensures !Mentions(logs[i], a.ipAddress.value)
    {
      assert logs[i] in t.logs;
    }
  }

  /** A second complete run at the same instant deletes nothing. */
  lemma CleanupIdempotent(t: Tables, now: int)
    ensures Cleanup(Cleanup(t, now, 3), now, 3) == Cleanup(t, now, 3)
  {
    var r := Cleanup(t, now, 3);
    CleanupComplete(t, now, 3);
    FilterAllKept(r.logs, KeepLog(LogCutoff(now)));
    FilterAllKept(r.alerts, KeepAlert(AlertCutoff(now)));
    FilterAllKept(r.alerts, NotOrphan(r.logs));
  }

  /** A run that stopped early, followed by a complete run, leaves what one
      complete run leaves. */
  lemma CleanupAfterFailure(t: Tables, now: int, completed: nat)
    ensures Cleanup(Cleanup(t, now, completed), now, 3) == Cleanup(t, now, 3)
  {
    if completed >= 3 {
      CleanupIdempotent(t, now);
    } else {
      if completed >= 1 {
        FilterIdempotent(t.logs, KeepLog(LogCutoff(now)));
      }
      if completed >= 2 {
        FilterIdempotent(t.alerts, KeepAlert(AlertCutoff(now)));
      }
    }
  }

  // ---------------------------------------------------------------------------
  // getDataSizeInfo

  /** `created_at >= ?`: false for a `NULL` `created_at`. */
  function IsRecent(cutoff: int): LogRow -> bool
  {
    (l: LogRow) => l.createdAt.Some? && l.createdAt.value >= cutoff
  }

  function IsOld(cutoff: int): LogRow -> bool { l => OldLog(l, cutoff) }

  function IsUndated(): LogRow -> bool { (l: LogRow) => l.createdAt.None? }

  /** The counts `getDataSizeInfo` reports. */
  datatype SizeInfo = SizeInfo(totalLogs: nat, recentLogs: nat, oldLogs: int, totalAlerts: nat)

  /** `getDataSizeInfo` at time `now`; `None` (the `null` it returns) when one
      of its queries throws. */
  function DataSizeInfo(t: Tables, now: int, fails: bool): (r: Option<SizeInfo>)
    ensures r.Some? <==> !fails
    ensures r.Some? ==> r.value.totalLogs == |t.logs| && r.value.totalAlerts == |t.alerts|
    ensures r.Some? ==> 0 <= r.value.oldLogs <= r.value.totalLogs
  {
    if fails then None
    else
      var recent := Count(t.logs, IsRecent(LogCutoff(now)));
      Some(SizeInfo(|t.logs|, recent, |t.logs| - recent, |t.alerts|))
  }

  /** Every log is recent, old or undated, and only one of them. */
  lemma {:induction false} LogCounts(logs: seq<LogRow>, cutoff: int)
    ensures Count(logs, IsRecent(cutoff)) + Count(logs, IsOld(cutoff)) + Count(logs, IsUndated()) == |logs|
    ensures Count(Filter(logs, KeepLog(cutoff)), IsRecent(cutoff)) == Count(logs, IsRecent(cutoff))
    ensures |Filter(logs, KeepLog(cutoff))| + Count(logs, IsOld(cutoff)) == |logs|
  {
    if logs != [] {
      LogCounts(logs[1..], cutoff);
    }
  }

  /** `oldLogs` counts the logs a run would delete plus those without a
      `created_at`, which no run deletes. */
  lemma OldLogsCounted(t: Tables, now: int)
    ensures DataSizeInfo(t, now, false).value.oldLogs ==
      Count(t.logs, IsOld(LogCutoff(now))) + Count(t.logs, IsUndated())
  {
    LogCounts(t.logs, LogCutoff(now));
  }

  /** The counts before and after a complete run: the recent logs stay, the
      old ones go, and what `oldLogs` still reports are the undated logs. */
  lemma CleanupCounts(t: Tables, now: int)
    ensures DataSizeInfo(Cleanup(t, now, 3), now, false).value.recentLogs ==
      DataSizeInfo(t, now, false).value.recentLogs
    ensures DataSizeInfo(Cleanup(t, now, 3), now, false).value.totalLogs ==
      DataSizeInfo(t, now, false).value.totalLogs - Count(t.logs, IsOld(LogCutoff(now)))
    ensures DataSizeInfo(Cleanup(t, now, 3), now, false).value.oldLogs == Count(t.logs, IsUndated())
    ensures DataSizeInfo(Cleanup(t, now, 3), now, false).value.totalAlerts <=
      DataSizeInfo(t, now, false).value.totalAlerts
  {
    LogCounts(t.logs, LogCutoff(now));
  }

  /** `manualCleanup`: statistics, cleanup, statistics. The statistics are
      only logged, so the tables end as one cleanup leaves them. */
  method ManualCleanup(db: Database, now: int, completed: nat)
    requires db.Valid()
    modifies db
    ensures db.Valid()
    ensures db.tenants == old(db.tenants) && db.sources == old(db.sources) && db.users == old(db.users)
    ensures db.nextAlertId == old(db.nextAlertId) && db.nextUserId == old(db.nextUserId)
    ensures Tables(db.logs, db.alerts) == Cleanup(Tables(old(db.logs), old(db.alerts)), now, completed)
  {
    var before := DataSizeInfo(Tables(db.logs, db.alerts), now, false);
    CleanupOldLogs(db, now, completed);
    var after := DataSizeInfo(Tables(db.logs, db.alerts), now, false);
  }
}
