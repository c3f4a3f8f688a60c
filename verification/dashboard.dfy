/** The dashboard page: the statistics `calculateStats` computes over the
    rows shown, and the filter chain of `handleFilterChange`, which always
    starts again from every row the page loaded. */
module Dashboard {
  import opened Common
  import opened Seqs
  import opened Tally
  import opened ClientRows
  import opened DateBounds

  const RecentCount := 10

  // ---------------------------------------------------------------------------
  // Statistics

  datatype Stats = Stats(totalLogs: nat, totalTenants: nat, totalSources: nat,
                         tenantDistribution: seq<Entry>, sourceDistribution: seq<Entry>)

  /** `new Set(logs.map(log => log[key]).filter(Boolean))` */
  function TruthyValues(logs: seq<Row>, key: string): set<Value>
  {
    set row | row in logs && Truthy(Field(row, key)) :: Field(row, key)
  }

  /** The `tenantDistribution` key of a row: its tenant name, for rows of
      type 'tenant' with a truthy one. */
  function TenantKey(row: Row): Option<string>
  {
    if Field(row, "log_type") == Str("tenant") && Truthy(Field(row, "tenant_name"))
    then Some(ToStr(Field(row, "tenant_name")))
    else None
  }

  /** The `sourceDistribution` key of a row: its type, for network and
      firewall rows. */
  function SourceKey(row: Row): Option<string>
  {
    if Field(row, "log_type") == Str("network") then Some("network")
    else if Field(row, "log_type") == Str("firewall") then Some("firewall")
    else None
  }

  /** What `calculateStats(logs)` answers. */
  function StatsOf(logs: seq<Row>): Stats
  {
    Stats(|logs|, |TruthyValues(logs, "tenant_id")|, |TruthyValues(logs, "source_id")|,
          TallyOf(KeysOf(logs, TenantKey)), TallyOf(KeysOf(logs, SourceKey)))
  }

  /** `calculateStats`: the two distinct counts, then one `forEach` that
      fills both distributions. */
  method CalculateStats(logs: seq<Row>) returns (s: Stats)
    ensures s == StatsOf(logs)
  {
    var tenantKeys := KeysOf(logs, TenantKey);
    var sourceKeys := KeysOf(logs, SourceKey);
    var tenants: seq<Entry> := [];
    var sources: seq<Entry> := [];
    for i := 0 to |logs|
      invariant tenants == TallyOf(tenantKeys[..i])
      invariant sources == TallyOf(sourceKeys[..i])
    {
      TallyStep(tenantKeys, i);
      TallyStep(sourceKeys, i);
      var row := logs[i];
      var t := TenantKey(row);
      if t.Some? {
        tenants := Bump(tenants, t.value);
      }
      var k := SourceKey(row);
      if k.Some? {
        sources := Bump(sources, k.value);
      }
    }
    assert tenantKeys[..|logs|] == tenantKeys;
    assert sourceKeys[..|logs|] == sourceKeys;
    s := Stats(|logs|, |TruthyValues(logs, "tenant_id")|, |TruthyValues(logs, "source_id")|, tenants, sources);
  }

  /** `buildDashboardData`: an empty list short-cuts to all-zero statistics,
      which are exactly what `calculateStats` gives for it. */
  method BuildDashboardData(logs: seq<Row>) returns (s: Stats)
    ensures s == StatsOf(logs)
  {
    if |logs| == 0 {
      EmptyStats();
      return Stats(0, 0, 0, [], []);
    }
    s := CalculateStats(logs);
  }

  /** No rows, no statistics. */
  lemma EmptyStats()
    ensures StatsOf([]) == Stats(0, 0, 0, [], [])
  {
    assert TruthyValues([], "tenant_id") == {};
    assert TruthyValues([], "source_id") == {};
  }

  /** At most one distinct value per row. */
  lemma {:induction false} TruthyValuesBound(logs: seq<Row>, key: string)
    ensures |TruthyValues(logs, key)| <= |logs|
  {
    if logs != [] {
      TruthyValuesBound(logs[1..], key);
      var v := Field(logs[0], key);
      assert TruthyValues(logs, key) <= TruthyValues(logs[1..], key) + {v} by {
        forall w | w in TruthyValues(logs, key)
          ensures w in TruthyValues(logs[1..], key) + {v}
        {
          var row :| row in logs && Truthy(Field(row, key)) && Field(row, key) == w;
          if row != logs[0] {
            assert row in logs[1..];
          }
        }
      }
      SetCardBound(TruthyValues(logs, key), TruthyValues(logs[1..], key), v);
    }
  }

  lemma SetCardBound(a: set<Value>, b: set<Value>, v: Value)
    requires a <= b + {v}
    ensures |a| <= |b| + 1
  {
    assert |b + {v}| <= |b| + 1;
    SubsetCard(a, b + {v});
  }

  lemma SubsetCard(a: set<Value>, b: set<Value>)
    requires a <= b
    ensures |a| <= |b|
  {
    assert b == a + (b - a);
  }

  /** Never more distinct tenants or sources than rows. */
  lemma DistinctCountsBounded(logs: seq<Row>)
    ensures StatsOf(logs).totalTenants <= StatsOf(logs).totalLogs
    ensures StatsOf(logs).totalSources <= StatsOf(logs).totalLogs
  {
    TruthyValuesBound(logs, "tenant_id");
    TruthyValuesBound(logs, "source_id");
  }

  /** Each tenant entry counts the tenant rows carrying that name, and the
      entries together count no more than the rows. */
  lemma TenantDistributionCounts(logs: seq<Row>)
    ensures forall e :: e in StatsOf(logs).tenantDistribution ==> e.count == Occurrences(KeysOf(logs, TenantKey), e.key)
    ensures Sum(Counts(StatsOf(logs).tenantDistribution)) <= |logs|
  {
    TallyCorrect(KeysOf(logs, TenantKey));
  }

  /** The source distribution only has the keys 'network' and 'firewall',
      and its entries together count no more than the rows. */
  lemma SourceDistributionKeys(logs: seq<Row>)
    ensures forall e :: e in StatsOf(logs).sourceDistribution ==> e.key == "network" || e.key == "firewall"
    ensures Sum(Counts(StatsOf(logs).sourceDistribution)) <= |logs|
  {
    var sk := KeysOf(logs, SourceKey);
    TallyCorrect(sk);
    forall e | e in TallyOf(sk)
      ensures e.key == "network" || e.key == "firewall"
    {
      LabelsMembers(TallyOf(sk), e.key);
      var i :| 0 <= i < |sk| && sk[i] == Some(e.key);
    }
  }

  // ---------------------------------------------------------------------------
  // The filter chain

  /** The filter panel's values; an empty text is a filter not set. */
  datatype Filters = Filters(startDate: string, endDate: string, logType: string, eventType: string,
                             ipAddress: string, user: string, severity: string)

  const NoFilters := Filters("", "", "", "", "", "", "")

  /** `row[key] === text` */
  function HasText(key: string, text: string): Row -> bool { (row: Row) => Field(row, key) == Str(text) }

  /** `v?.includes(text)` on a string property. */
  predicate TextIncludes(v: Value, text: string) { v.Str? && Includes(v.s, text) }

  /** `src_ip`, `dst_ip` or `ip_address` contains the text. */
  predicate MentionsIp(row: Row, text: string)
  {
    TextIncludes(Field(row, "src_ip"), text) || TextIncludes(Field(row, "dst_ip"), text)
    || TextIncludes(Field(row, "ip_address"), text)
  }

  function IpMentions(text: string): Row -> bool { (row: Row) => MentionsIp(row, text) }

  /** `log.user?.toLowerCase().includes(user.toLowerCase())` */
  predicate MentionsUser(row: Row, text: string)
  {
    Field(row, "user").Str? && IncludesIgnoringCase(Field(row, "user").s, text)
  }

  function UserMentions(text: string): Row -> bool { (row: Row) => MentionsUser(row, text) }

  /** `v == text`, JavaScript's loose equality between a property and a
      string: a number or boolean is compared by its numeric text. */
  predicate LooseEquals(v: Value, text: string)
  {
    match v
    case Null => false
    case Bool(b) => text == (if b then "1" else "0")
    case Num(n) => text == IntToDecimal(n)
    case Str(s) => s == text
    case Obj => text == ToStr(Obj)
  }

  function SeverityIs(text: string): Row -> bool { (row: Row) => LooseEquals(Field(row, "severity"), text) }

  /** The two date steps of `handleFilterChange`. */
  function ByDates(all: seq<Row>, f: Filters, toDate: Value -> Option<Instant>): seq<Row>
  {
    ByDateRange(all, f.startDate, f.endDate, toDate)
  }

  /** The five property steps that follow them. */
  function ByFields(rows: seq<Row>, f: Filters): seq<Row>
  {
    var byType := Narrow(rows, f.logType != "", HasText("log_type", f.logType));
    var byEvent := Narrow(byType, f.eventType != "", HasText("event_type", f.eventType));
    var byIp := Narrow(byEvent, f.ipAddress != "", IpMentions(f.ipAddress));
    var byUser := Narrow(byIp, f.user != "", UserMentions(f.user));
    Narrow(byUser, f.severity != "", SeverityIs(f.severity))
  }

  /** The rows `handleFilterChange` keeps, in the order of its steps. */
  function Selected(all: seq<Row>, f: Filters, toDate: Value -> Option<Instant>): seq<Row>
  {
    ByFields(ByDates(all, f, toDate), f)
  }

  /** A row passes both date filters that are set. */
  predicate PassesDates(f: Filters, toDate: Value -> Option<Instant>, row: Row)
  {
    InDateRange(f.startDate, f.endDate, toDate, row)
  }

  /** A row passes every property filter that is set. */
  predicate PassesFields(f: Filters, row: Row)
  {
    && (f.logType == "" || Field(row, "log_type") == Str(f.logType))
    && (f.eventType == "" || Field(row, "event_type") == Str(f.eventType))
    && (f.ipAddress == "" || MentionsIp(row, f.ipAddress))
    && (f.user == "" || MentionsUser(row, f.user))
    && (f.severity == "" || LooseEquals(Field(row, "severity"), f.severity))
  }

  /** A row passes every filter that is set. */
  predicate Passes(f: Filters, toDate: Value -> Option<Instant>, row: Row)
  {
    PassesDates(f, toDate, row) && PassesFields(f, row)
  }

  lemma ByDatesMember(all: seq<Row>, f: Filters, toDate: Value -> Option<Instant>, row: Row)
    ensures row in ByDates(all, f, toDate) <==> row in all && PassesDates(f, toDate, row)
  {
    ByDateRangeMember(all, f.startDate, f.endDate, toDate, row);
  }

  lemma ByFieldsMember(rows: seq<Row>, f: Filters, row: Row)
    ensures row in ByFields(rows, f) <==> row in rows && PassesFields(f, row)
  {
    var byType := Narrow(rows, f.logType != "", HasText("log_type", f.logType));
    var byEvent := Narrow(byType, f.eventType != "", HasText("event_type", f.eventType));
    var byIp := Narrow(byEvent, f.ipAddress != "", IpMentions(f.ipAddress));
    var byUser := Narrow(byIp, f.user != "", UserMentions(f.user));
    NarrowMember(rows, f.logType != "", HasText("log_type", f.logType), row);
    NarrowMember(byType, f.eventType != "", HasText("event_type", f.eventType), row);
    NarrowMember(byEvent, f.ipAddress != "", IpMentions(f.ipAddress), row);
    NarrowMember(byIp, f.user != "", UserMentions(f.user), row);
    NarrowMember(byUser, f.severity != "", SeverityIs(f.severity), row);
  }

  /** The chain keeps exactly the loaded rows that pass every filter set. */
  lemma SelectedMember(all: seq<Row>, f: Filters, toDate: Value -> Option<Instant>, row: Row)
    ensures row in Selected(all, f, toDate) <==> row in all && Passes(f, toDate, row)
  {
    ByDatesMember(all, f, toDate, row);
    ByFieldsMember(ByDates(all, f, toDate), f, row);
  }

  /** The chain keeps the rows it keeps in their loaded order. */
  lemma SelectedKeepsOrder(all: seq<Row>, f: Filters, toDate: Value -> Option<Instant>)
    ensures Subseq(Selected(all, f, toDate), all)
  {
    var byEnd := ByDates(all, f, toDate);
    var byType := Narrow(byEnd, f.logType != "", HasText("log_type", f.logType));
    var byEvent := Narrow(byType, f.eventType != "", HasText("event_type", f.eventType));
    var byIp := Narrow(byEvent, f.ipAddress != "", IpMentions(f.ipAddress));
    var byUser := Narrow(byIp, f.user != "", UserMentions(f.user));
    SubseqTrans(byType, byEnd, all);
    SubseqTrans(byEvent, byType, all);
    SubseqTrans(byIp, byEvent, all);
    SubseqTrans(byUser, byIp, all);
    SubseqTrans(Selected(all, f, toDate), byUser, all);
  }

  /** The property steps treat the two halves of a list separately. */
  lemma ByFieldsAppend(a: seq<Row>, b: seq<Row>, f: Filters)
    ensures ByFields(a + b, f) == ByFields(a, f) + ByFields(b, f)
  {
    var byTypeA := Narrow(a, f.logType != "", HasText("log_type", f.logType));
    var byTypeB := Narrow(b, f.logType != "", HasText("log_type", f.logType));
    var byEventA := Narrow(byTypeA, f.eventType != "", HasText("event_type", f.eventType));
    var byEventB := Narrow(byTypeB, f.eventType != "", HasText("event_type", f.eventType));
    var byIpA := Narrow(byEventA, f.ipAddress != "", IpMentions(f.ipAddress));
    var byIpB := Narrow(byEventB, f.ipAddress != "", IpMentions(f.ipAddress));
    var byUserA := Narrow(byIpA, f.user != "", UserMentions(f.user));
    var byUserB := Narrow(byIpB, f.user != "", UserMentions(f.user));
    NarrowAppend(a, b, f.logType != "", HasText("log_type", f.logType));
    NarrowAppend(byTypeA, byTypeB, f.eventType != "", HasText("event_type", f.eventType));
    NarrowAppend(byEventA, byEventB, f.ipAddress != "", IpMentions(f.ipAddress));
    NarrowAppend(byIpA, byIpB, f.user != "", UserMentions(f.user));
    NarrowAppend(byUserA, byUserB, f.severity != "", SeverityIs(f.severity));
  }

  /** The chain treats the two halves of a list separately. */
  lemma SelectedAppend(a: seq<Row>, b: seq<Row>, f: Filters, toDate: Value -> Option<Instant>)
    ensures Selected(a + b, f, toDate) == Selected(a, f, toDate) + Selected(b, f, toDate)
  {
    ByDateRangeAppend(a, b, f.startDate, f.endDate, toDate);
    ByFieldsAppend(ByDates(a, f, toDate), ByDates(b, f, toDate), f);
  }

  /** `Passes` as the test of a single `filter` call. */
  function PassesAll(f: Filters, toDate: Value -> Option<Instant>): Row -> bool
  {
    (row: Row) => Passes(f, toDate, row)
  }

  /** The chain of steps is one filter by the conjunction of the filters
      set: it keeps exactly the rows that pass, each as often as it was
      loaded, in loaded order. */
  lemma {:induction false} SelectedIsFilter(all: seq<Row>, f: Filters, toDate: Value -> Option<Instant>)
    ensures Selected(all, f, toDate) == Filter(all, PassesAll(f, toDate))
  {
    if all != [] {
      var x := all[0];
      SelectedIsFilter(all[1..], f, toDate);
      assert all == [x] + all[1..];
      SelectedAppend([x], all[1..], f, toDate);
      SelectedKeepsOrder([x], f, toDate);
      SubseqOfOne(Selected([x], f, toDate), x);
      SelectedMember([x], f, toDate, x);
    }
  }

  /** With no filter set, every loaded row is shown. */
  lemma NoFiltersKeepAll(all: seq<Row>, toDate: Value -> Option<Instant>)
    ensures Selected(all, NoFilters, toDate) == all
  {
  }

  /** The dashboard's state. */
  class DashboardPage {
    var allLogs: seq<Row>
    var filteredLogs: seq<Row>
    var recentLogs: seq<Row>
    var stats: Stats

    /** The state once `/api/logs` answered `logs`. */
    constructor (logs: seq<Row>)
      ensures allLogs == logs && filteredLogs == logs
      ensures recentLogs == Take(logs, RecentCount) && stats == StatsOf(logs)
    {
      allLogs := logs;
      filteredLogs := logs;
      recentLogs := Take(logs, RecentCount);
      stats := StatsOf(logs);
    }

    /** `handleFilterChange(filters)`: restarts from every loaded row, narrows
        step by step, and shows the first ten rows and the statistics of what
        is left. */
    method HandleFilterChange(f: Filters, toDate: Value -> Option<Instant>)
      modifies this
      ensures allLogs == old(allLogs)
      ensures filteredLogs == Selected(allLogs, f, toDate)
      ensures recentLogs == Take(filteredLogs, RecentCount)
      ensures stats == StatsOf(filteredLogs)
    {
      var filtered := ByDates(allLogs, f, toDate);
      filtered := Narrow(filtered, f.logType != "", HasText("log_type", f.logType));
      filtered := Narrow(filtered, f.eventType != "", HasText("event_type", f.eventType));
      filtered := Narrow(filtered, f.ipAddress != "", IpMentions(f.ipAddress));
      filtered := Narrow(filtered, f.user != "", UserMentions(f.user));
      filtered := Narrow(filtered, f.severity != "", SeverityIs(f.severity));
      assert filtered == Selected(allLogs, f, toDate);
      var summary := BuildDashboardData(filtered);
      filteredLogs, recentLogs, stats := filtered, Take(filtered, RecentCount), summary;
    }
  }
}
