/** `checkFailedLoginAttempts`: the grouping query over the last five minutes
    of failed-login events, and the loop that inserts one
    'failed_login_attempts' alert per group unless the same IP already has one
    from the last hour. */
module SecurityService {
  import opened Common
  import opened Seqs
  import opened Sql
  import opened Store

  const FailedLoginAlert := "failed_login_attempts"
  const FiveMinutes := 5 * 60
  const OneHour := 60 * 60
  const MinAttempts := 3

  // ---------------------------------------------------------------------------
  // The grouping query

  /** The `WHERE` clause on `event_type`; a `NULL` event type matches no
      pattern. */
  predicate FailedLoginEvent(e: string)
  {
    Like(e, "%login%fail%") || Like(e, "%LogonFailed%") || Like(e, "%app_login_failed%")
  }

  predicate Qualifies(l: LogRow, now: int)
  {
    && l.eventType.Some? && FailedLoginEvent(l.eventType.value)
    && l.timestamp >= now - FiveMinutes
    && l.srcIp.Some?
  }

  /** The rows the `WHERE` clause keeps, in table order. */
  function Qualifying(logs: seq<LogRow>, now: int): (r: seq<LogRow>)
    ensures forall i :: 0 <= i < |r| ==> Qualifies(r[i], now)
    ensures forall l :: l in r <==> l in logs && Qualifies(l, now)
  {
    if logs == [] then []
    else if Qualifies(logs[0], now) then [logs[0]] + Qualifying(logs[1..], now)
    else Qualifying(logs[1..], now)
  }

  /** `GROUP BY l.src_ip, t.name` */
  type Key = (string, Option<string>)

  function KeyOf(l: LogRow, tenants: seq<Tenant>): Key
    requires l.srcIp.Some?
  {
    (l.srcIp.value, TenantName(tenants, l.tenantId))
  }

  function Keys(rows: seq<LogRow>, tenants: seq<Tenant>): (ks: seq<Key>)
    requires forall i :: 0 <= i < |rows| ==> rows[i].srcIp.Some?
    ensures |ks| == |rows| && forall i :: 0 <= i < |rows| ==> ks[i] == KeyOf(rows[i], tenants)
  {
    if rows == [] then [] else [KeyOf(rows[0], tenants)] + Keys(rows[1..], tenants)
  }

  /** The group key of every row the `WHERE` clause keeps. */
  function QualifyingKeys(logs: seq<LogRow>, tenants: seq<Tenant>, now: int): seq<Key>
  {
    Keys(Qualifying(logs, now), tenants)
  }

  /** The non-`NULL` users of the rows of group `k`. */
  function UsersOf(rows: seq<LogRow>, tenants: seq<Tenant>, k: Key): seq<string>
    requires forall i :: 0 <= i < |rows| ==> rows[i].srcIp.Some?
  {
    if rows == [] then []
    else
      var rest := UsersOf(rows[1..], tenants, k);
      if KeyOf(rows[0], tenants) == k && rows[0].user.Some? then [rows[0].user.value] + rest else rest
  }

  /** One result row: `ip`, `attempt_count`, `users` and `tenant_name`. */
  datatype Candidate = Candidate(ip: string, tenantName: Option<string>, attemptCount: nat, users: seq<string>)

  function CandidateKey(c: Candidate): Key { (c.ip, c.tenantName) }

  /** `HAVING attempt_count >= 3` over the groups `ks`. */
  function Grouped(rows: seq<LogRow>, tenants: seq<Tenant>, ks: seq<Key>): (r: seq<Candidate>)
    requires forall i :: 0 <= i < |rows| ==> rows[i].srcIp.Some?
    ensures |r| <= |ks|
  {
    if ks == [] then []
    else
      var k := ks[0];
      var n := multiset(Keys(rows, tenants))[k];
      var rest := Grouped(rows, tenants, ks[1..]);
      if n >= MinAttempts then [Candidate(k.0, k.1, n, Dedup(UsersOf(rows, tenants, k)))] + rest
      else rest
  }

  /** Every result row is one of the groups `ks`, with its number of events,
      which is at least three. */
  lemma {:induction false} GroupedSound(rows: seq<LogRow>, tenants: seq<Tenant>, ks: seq<Key>)
    requires forall i :: 0 <= i < |rows| ==> rows[i].srcIp.Some?
    ensures forall c :: c in Grouped(rows, tenants, ks) ==>
      && CandidateKey(c) in ks
      && c.attemptCount >= MinAttempts
      && c.attemptCount == multiset(Keys(rows, tenants))[CandidateKey(c)]
  {
    if ks != [] {
      GroupedSound(rows, tenants, ks[1..]);
    }
  }

  /** Every group of `ks` with at least three events has a result row. */
  lemma {:induction false} GroupedComplete(rows: seq<LogRow>, tenants: seq<Tenant>, ks: seq<Key>)
    requires forall i :: 0 <= i < |rows| ==> rows[i].srcIp.Some?
    ensures forall k :: k in ks && multiset(Keys(rows, tenants))[k] >= MinAttempts ==>
      exists c :: c in Grouped(rows, tenants, ks) && CandidateKey(c) == k
  {
    if ks != [] {
      GroupedComplete(rows, tenants, ks[1..]);
      var r := Grouped(rows, tenants, ks);
      var rest := Grouped(rows, tenants, ks[1..]);
      forall k | k in ks && multiset(Keys(rows, tenants))[k] >= MinAttempts
        ensures exists c :: c in r && CandidateKey(c) == k
      {
        if k == ks[0] {
          assert CandidateKey(r[0]) == k;
        } else {
          assert k in ks[1..];
          var c :| c in rest && CandidateKey(c) == k;
          assert c in r;
        }
      }
    }
  }

  /** The result of the grouping query, one row per group in order of first
      appearance. */
  function Candidates(logs: seq<LogRow>, tenants: seq<Tenant>, now: int): seq<Candidate>
  {
    var rows := Qualifying(logs, now);
    Grouped(rows, tenants, Dedup(Keys(rows, tenants)))
  }

  lemma {:induction false} GroupedDistinct(rows: seq<LogRow>, tenants: seq<Tenant>, ks: seq<Key>)
    requires forall i :: 0 <= i < |rows| ==> rows[i].srcIp.Some?
    requires forall i, j :: 0 <= i < j < |ks| ==> ks[i] != ks[j]
    ensures forall i, j :: 0 <= i < j < |Grouped(rows, tenants, ks)| ==>
      CandidateKey(Grouped(rows, tenants, ks)[i]) != CandidateKey(Grouped(rows, tenants, ks)[j])
  {
    if ks != [] {
      GroupedDistinct(rows, tenants, ks[1..]);
      GroupedSound(rows, tenants, ks[1..]);
      var r := Grouped(rows, tenants, ks);
      var rest := Grouped(rows, tenants, ks[1..]);
      assert ks[0] !in ks[1..] by {
        forall i | 0 <= i < |ks| - 1 ensures ks[1..][i] != ks[0] {
          assert ks[1..][i] == ks[i + 1];
        }
      }
      forall c | c in rest
        ensures CandidateKey(c) != ks[0]
      {
        assert CandidateKey(c) in ks[1..];
      }
      if r != rest {
        forall j | 0 < j < |r|
          ensures CandidateKey(r[0]) != CandidateKey(r[j])
        {
          assert r[j] in rest;
        }
      }
    }
  }

  /** The query returns exactly the (IP, tenant) groups with at least three
      qualifying events, each once, with its number of events. */
  lemma CandidatesCorrect(logs: seq<LogRow>, tenants: seq<Tenant>, now: int)
    ensures forall c :: c in Candidates(logs, tenants, now) ==>
      && c.attemptCount >= MinAttempts
      && c.attemptCount == multiset(QualifyingKeys(logs, tenants, now))[CandidateKey(c)]
    ensures forall k :: multiset(QualifyingKeys(logs, tenants, now))[k] >= MinAttempts ==>
      exists c :: c in Candidates(logs, tenants, now) && CandidateKey(c) == k
    ensures forall i, j :: 0 <= i < j < |Candidates(logs, tenants, now)| ==>
      CandidateKey(Candidates(logs, tenants, now)[i]) != CandidateKey(Candidates(logs, tenants, now)[j])
  {
    var rows := Qualifying(logs, now);
    var ks := Keys(rows, tenants);
    assert Candidates(logs, tenants, now) == Grouped(rows, tenants, Dedup(ks));
    GroupedSound(rows, tenants, Dedup(ks));
    GroupedComplete(rows, tenants, Dedup(ks));
    forall k | multiset(QualifyingKeys(logs, tenants, now))[k] >= MinAttempts
      ensures exists c :: c in Candidates(logs, tenants, now) && CandidateKey(c) == k
    {
      assert k in multiset(ks);
      var i :| 0 <= i < |ks| && ks[i] == k;
      assert k in Dedup(ks);
    }
    GroupedDistinct(rows, tenants, Dedup(ks));
  }

  // ---------------------------------------------------------------------------
  // The insert loop

  /** `${login.tenant_name || 'Unknown'}` */
  function TenantLabel(t: Option<string>): string
  {
    if t.Some? && t.value != "" then t.value else "Unknown"
  }

  function AlertMessage(c: Candidate): string
  {
    "Detected " + NatToDecimal(c.attemptCount) + " failed logins from IP " + c.ip
      + " (" + TenantLabel(c.tenantName) + ")"
  }

  /** The row the loop inserts for candidate `c`. */
  function AlertFor(c: Candidate, id: nat, now: int): AlertRow
  {
    AlertRow(id, FailedLoginAlert, AlertMessage(c), Some(c.ip),
             LoginDetails(c.attemptCount, c.users, c.tenantName, "5 minutes", now), now)
  }

  predicate IsRecentAlertFor(a: AlertRow, ip: string, now: int)
  {
    a.alertType == FailedLoginAlert && a.ipAddress == Some(ip) && a.createdAt >= now - OneHour
  }

  /** The dedup query's `COUNT(*)` is not 0. */
  predicate HasRecentAlert(alerts: seq<AlertRow>, ip: string, now: int)
  {
    exists i :: 0 <= i < |alerts| && IsRecentAlertFor(alerts[i], ip, now)
  }

  /** The alerts table with its AUTO_INCREMENT counter. */
  datatype AlertTable = AlertTable(rows: seq<AlertRow>, nextId: nat)

  /** The table after the loop has handled the candidates `cs` in order: each
      check sees the rows inserted for the earlier candidates. */
  function Sweep(t: AlertTable, cs: seq<Candidate>, now: int): (r: AlertTable)
    ensures |t.rows| <= |r.rows| && r.rows[..|t.rows|] == t.rows
    ensures r.nextId == t.nextId + (|r.rows| - |t.rows|)
  {
    if cs == [] then t
    else
      var p := Sweep(t, cs[..|cs| - 1], now);
      var c := cs[|cs| - 1];
      if HasRecentAlert(p.rows, c.ip, now) then p
      else AlertTable(p.rows + [AlertFor(c, p.nextId, now)], p.nextId + 1)
  }

  /** Where a query of the sweep throws, if one does. */
  datatype SweepFailure = NoFailure | GroupingFails | CandidateFails(at: nat)

  /** The candidates whose turn comes before the failing query. */
  function Processed(cs: seq<Candidate>, failure: SweepFailure): (r: seq<Candidate>)
    ensures |r| <= |cs| && r == cs[..|r|]
  {
    match failure
    case NoFailure => cs
    case GroupingFails => []
    case CandidateFails(i) => if i <= |cs| then cs[..i] else cs
  }

  /** Inserting a row numbered with the counter keeps the ids fresh. */
  lemma AppendFresh(alerts: seq<AlertRow>, nextId: nat, a: AlertRow)
    requires AlertIdsFresh(alerts, nextId) && a.id == nextId
    ensures AlertIdsFresh(alerts + [a], nextId + 1)
  {
  }

  /** The loop over the first `count` candidates. */
  method InsertAlerts(db: Database, cands: seq<Candidate>, count: nat, now: int)
    requires db.Valid() && count <= |cands|
    modifies db
    ensures db.Valid()
    ensures db.logs == old(db.logs) && db.tenants == old(db.tenants) && db.sources == old(db.sources)
    ensures db.users == old(db.users) && db.nextUserId == old(db.nextUserId)
    ensures AlertTable(db.alerts, db.nextAlertId) ==
      Sweep(AlertTable(old(db.alerts), old(db.nextAlertId)), cands[..count], now)
  {
    ghost var t0 := AlertTable(db.alerts, db.nextAlertId);
    for i := 0 to count
      invariant db.logs == old(db.logs) && db.tenants == old(db.tenants)
      invariant db.sources == old(db.sources) && db.users == old(db.users)
      invariant db.nextUserId == old(db.nextUserId)
      invariant db.Valid()
      invariant AlertTable(db.alerts, db.nextAlertId) == Sweep(t0, cands[..i], now)
    {
      var c := cands[i];
      assert cands[..i + 1][..i] == cands[..i];
      if !HasRecentAlert(db.alerts, c.ip, now) {
        AppendFresh(db.alerts, db.nextAlertId, AlertFor(c, db.nextAlertId, now));
        db.alerts := db.alerts + [AlertFor(c, db.nextAlertId, now)];
        db.nextAlertId := db.nextAlertId + 1;
      }
    }
  }

  /** One run of `checkFailedLoginAttempts` at time `now`. A query that throws
      ends the run; its error is only logged, and the rows inserted before it
      stay. */
  method CheckFailedLoginAttempts(db: Database, now: int, failure: SweepFailure)
    requires db.Valid()
    modifies db
    ensures db.Valid()
    ensures db.logs == old(db.logs) && db.tenants == old(db.tenants) && db.sources == old(db.sources)
    ensures db.users == old(db.users) && db.nextUserId == old(db.nextUserId)
    ensures AlertTable(db.alerts, db.nextAlertId) ==
      Sweep(AlertTable(old(db.alerts), old(db.nextAlertId)),
            Processed(Candidates(old(db.logs), old(db.tenants), now), failure), now)
  {
    var cands := Candidates(db.logs, db.tenants, now);
    var done := Processed(cands, failure);
    InsertAlerts(db, cands, |done|, now);
  }

  // ---------------------------------------------------------------------------
  // What a sweep inserts

  /** Row `j` of `rows` is the alert for `c` numbered `id`, and no recent
      alert for its IP comes before it. */
  predicate InsertedFor(rows: seq<AlertRow>, j: nat, c: Candidate, id: nat, now: int)
    requires j < |rows|
  {
    rows[j] == AlertFor(c, id, now) && !HasRecentAlert(rows[..j], c.ip, now)
  }

  /** Appending rows does not change what an earlier row was inserted for. */
  lemma InsertedForKept(p: seq<AlertRow>, r: seq<AlertRow>, j: nat, c: Candidate, id: nat, now: int)
    requires j < |p| <= |r| && r[..|p|] == p && InsertedFor(p, j, c, id, now)
    ensures InsertedFor(r, j, c, id, now)
  {
    assert r[..j] == p[..j];
    assert r[j] == p[j];
  }

  /** Row `j` of `r` is inserted for one of `cs`, numbered in insertion
      order after the rows of `t`. */
  predicate InsertedAt(r: AlertTable, t: AlertTable, cs: seq<Candidate>, j: nat, now: int)
    requires |t.rows| <= j < |r.rows|
  {
    exists k :: 0 <= k < |cs| && InsertedFor(r.rows, j, cs[k], t.nextId + (j - |t.rows|), now)
  }

  /** Every inserted row is the alert for one candidate, numbered in insertion
      order, and when it was inserted no recent alert for its IP was in the
      table, counting the rows inserted before it in the same run. */
  lemma {:induction false} SweepRows(t: AlertTable, cs: seq<Candidate>, now: int)
    ensures forall j :: |t.rows| <= j < |Sweep(t, cs, now).rows| ==> InsertedAt(Sweep(t, cs, now), t, cs, j, now)
  {
    if cs != [] {
      var init := cs[..|cs| - 1];
      var p := Sweep(t, init, now);
      var r := Sweep(t, cs, now);
      SweepRows(t, init, now);
      forall j | |t.rows| <= j < |r.rows|
        ensures InsertedAt(r, t, cs, j, now)
      {
        if j < |p.rows| {
          SweepRowEarlier(t, cs, j, now);
        } else {
          SweepRowLast(t, cs, j, now);
        }
      }
    }
  }

  /** A row inserted for the earlier candidates stays as it was. */
  lemma SweepRowEarlier(t: AlertTable, cs: seq<Candidate>, j: nat, now: int)
    requires cs != [] && |t.rows| <= j < |Sweep(t, cs[..|cs| - 1], now).rows|
    requires InsertedAt(Sweep(t, cs[..|cs| - 1], now), t, cs[..|cs| - 1], j, now)
    ensures InsertedAt(Sweep(t, cs, now), t, cs, j, now)
  {
    var init := cs[..|cs| - 1];
    var p := Sweep(t, init, now);
    var r := Sweep(t, cs, now);
    var id := t.nextId + (j - |t.rows|);
    var k :| 0 <= k < |init| && InsertedFor(p.rows, j, init[k], id, now);
    assert r.rows[..|p.rows|] == p.rows;
    InsertedForKept(p.rows, r.rows, j, init[k], id, now);
    assert cs[k] == init[k];
    assert InsertedFor(r.rows, j, cs[k], id, now);
  }

  /** The row the last candidate adds, if any, is inserted for it. */
  lemma SweepRowLast(t: AlertTable, cs: seq<Candidate>, j: nat, now: int)
    requires cs != [] && |Sweep(t, cs[..|cs| - 1], now).rows| <= j < |Sweep(t, cs, now).rows|
    ensures |t.rows| <= j && InsertedAt(Sweep(t, cs, now), t, cs, j, now)
  {
    var p := Sweep(t, cs[..|cs| - 1], now);
    var r := Sweep(t, cs, now);
    var k := |cs| - 1;
    assert r.rows[..j] == p.rows;
    assert InsertedFor(r.rows, j, cs[k], t.nextId + (j - |t.rows|), now);
  }

  /** One sweep inserts at most one alert per IP, even when the IP heads
      several groups (one per tenant). */
  lemma AtMostOnePerIp(t: AlertTable, cs: seq<Candidate>, now: int)
    ensures forall i, j :: |t.rows| <= i < j < |Sweep(t, cs, now).rows| ==>
      Sweep(t, cs, now).rows[i].ipAddress != Sweep(t, cs, now).rows[j].ipAddress
  {
    var r := Sweep(t, cs, now);
    SweepRows(t, cs, now);
    forall i, j | |t.rows| <= i < j < |r.rows|
      ensures r.rows[i].ipAddress != r.rows[j].ipAddress
    {
      InsertedApart(r, t, cs, i, j, now);
    }
  }

  lemma InsertedApart(r: AlertTable, t: AlertTable, cs: seq<Candidate>, i: nat, j: nat, now: int)
    requires |t.rows| <= i < j < |r.rows| && InsertedAt(r, t, cs, i, now) && InsertedAt(r, t, cs, j, now)
    ensures r.rows[i].ipAddress != r.rows[j].ipAddress
  {
    var k :| 0 <= k < |cs| && InsertedFor(r.rows, j, cs[k], t.nextId + (j - |t.rows|), now);
    var k' :| 0 <= k' < |cs| && InsertedFor(r.rows, i, cs[k'], t.nextId + (i - |t.rows|), now);
    IpsApart(r.rows, i, j, cs[k'], cs[k], t.nextId + (i - |t.rows|), t.nextId + (j - |t.rows|), now);
  }

  /** A row inserted after another is for a different IP, since the earlier
      one is a recent alert for its own IP. */
  lemma IpsApart(rows: seq<AlertRow>, i: nat, j: nat, ci: Candidate, cj: Candidate, idi: nat, idj: nat, now: int)
    requires i < j < |rows| && InsertedFor(rows, i, ci, idi, now) && InsertedFor(rows, j, cj, idj, now)
    ensures rows[i].ipAddress != rows[j].ipAddress
  {
    assert rows[..j][i] == rows[i];
    assert IsRecentAlertFor(rows[i], ci.ip, now);
  }

  /** After a sweep every candidate's IP has a recent alert. */
  lemma {:induction false} SweepCovers(t: AlertTable, cs: seq<Candidate>, now: int)
    ensures forall c :: c in cs ==> HasRecentAlert(Sweep(t, cs, now).rows, c.ip, now)
  {
    if cs != [] {
      var init := cs[..|cs| - 1];
      var p := Sweep(t, init, now);
      var r := Sweep(t, cs, now);
      SweepCovers(t, init, now);
      forall c | c in cs
        ensures HasRecentAlert(r.rows, c.ip, now)
      {
        if c in init {
          var i :| 0 <= i < |p.rows| && IsRecentAlertFor(p.rows[i], c.ip, now);
          assert r.rows[i] == p.rows[i];
        } else {
          assert c == cs[|cs| - 1];
          if !HasRecentAlert(p.rows, c.ip, now) {
            assert IsRecentAlertFor(r.rows[|p.rows|], c.ip, now);
          }
        }
      }
    }
  }

  /** Candidates whose IPs all have recent alerts insert nothing. */
  lemma {:induction false} SweepNothingNew(t: AlertTable, cs: seq<Candidate>, now: int)
    requires forall c :: c in cs ==> HasRecentAlert(t.rows, c.ip, now)
    ensures Sweep(t, cs, now) == t
  {
    if cs != [] {
      SweepNothingNew(t, cs[..|cs| - 1], now);
      assert cs[|cs| - 1] in cs;
    }
  }

  /** A second sweep over the same candidates at the same instant inserts
      nothing. */
  lemma SweepIdempotent(t: AlertTable, cs: seq<Candidate>, now: int)
    ensures Sweep(Sweep(t, cs, now), cs, now) == Sweep(t, cs, now)
  {
    SweepCovers(t, cs, now);
    SweepNothingNew(Sweep(t, cs, now), cs, now);
  }

  /** Two runs at the same instant without failures leave the table as the
      first run left it: the first run does not change the logs, so the second
      sees the same groups. */
  method SweepTwice(db: Database, now: int)
    requires db.Valid()
    modifies db
    ensures db.Valid()
    ensures db.logs == old(db.logs) && db.tenants == old(db.tenants) && db.sources == old(db.sources)
    ensures db.users == old(db.users) && db.nextUserId == old(db.nextUserId)
    ensures AlertTable(db.alerts, db.nextAlertId) ==
      Sweep(AlertTable(old(db.alerts), old(db.nextAlertId)), Candidates(old(db.logs), old(db.tenants), now), now)
  {
    ghost var cs := Candidates(db.logs, db.tenants, now);
    ghost var t0 := AlertTable(db.alerts, db.nextAlertId);
    CheckFailedLoginAttempts(db, now, NoFailure);
    ghost var t1 := AlertTable(db.alerts, db.nextAlertId);
    assert t1 == Sweep(t0, cs, now);
    CheckFailedLoginAttempts(db, now, NoFailure);
    SweepIdempotent(t0, cs, now);
  }
}
