/** The read routes over the logs table: role dispatch, the joins with tenants
    and sources, `ORDER BY ... LIMIT`, and the `logsBySource` grouping of
    `/tenant/:id`. The caller's decoded token is the parameter `user`; a query
    that throws is the parameter `fails`. */
module LogsRoutes {
  import opened Common
  import opened Seqs
  import opened Sorting
  import opened Store

  const AccessDenied := "Access denied"
  const InvalidRole := "Forbidden: invalid role"
  const TenantNotFound := "Tenant not found"
  const MaxRows := 1000
  const DefaultLimit := 100

  // ---------------------------------------------------------------------------
  // Joined rows and their order

  /** A log row with the names its `LEFT JOIN`s add; a route that does not
      select a name leaves it `None`. */
  datatype LogView = LogView(log: LogRow, tenantName: Option<string>, sourceName: Option<string>)

  /** `FROM logs l LEFT JOIN tenants t ... LEFT JOIN sources s ...` */
  function WithNames(logs: seq<LogRow>, tenants: seq<Tenant>, sources: seq<Source>): (r: seq<LogView>)
    ensures |r| == |logs|
    ensures forall i :: 0 <= i < |r| ==>
      && r[i].log == logs[i]
      && r[i].tenantName == TenantName(tenants, logs[i].tenantId)
      && r[i].sourceName == SourceName(sources, logs[i].sourceId)
  {
    if logs == [] then []
    else
      var v := LogView(logs[0], TenantName(tenants, logs[0].tenantId), SourceName(sources, logs[0].sourceId));
      [v] + WithNames(logs[1..], tenants, sources)
  }

  /** `FROM logs l LEFT JOIN sources s ...` */
  function WithSource(logs: seq<LogRow>, sources: seq<Source>): (r: seq<LogView>)
    ensures |r| == |logs|
    ensures forall i :: 0 <= i < |r| ==>
      r[i].log == logs[i] && r[i].tenantName.None? && r[i].sourceName == SourceName(sources, logs[i].sourceId)
  {
    if logs == [] then []
    else [LogView(logs[0], None, SourceName(sources, logs[0].sourceId))] + WithSource(logs[1..], sources)
  }

  /** `ORDER BY l.timestamp DESC` */
  predicate NewerFirst(a: LogView, b: LogView) { a.log.timestamp >= b.log.timestamp }

  /** `ORDER BY l.timestamp DESC LIMIT n` */
  function Newest(views: seq<LogView>, n: nat): seq<LogView>
  {
    Take(SortBy(views, NewerFirst), n)
  }

  lemma NewerFirstOrders()
    ensures TotalPreorder(NewerFirst)
  {
  }

  /** The newest `n` rows: at most `n`, newest first, drawn from the input,
      and none left out is newer than one returned. */
  lemma NewestCorrect(views: seq<LogView>, n: nat)
    ensures |Newest(views, n)| == Min(n, |views|)
    ensures SortedBy(Newest(views, n), NewerFirst)
    ensures forall v :: v in Newest(views, n) ==> v in views
    ensures forall v, w :: w in views && w !in Newest(views, n) && v in Newest(views, n) ==>
      v.log.timestamp >= w.log.timestamp
  {
    NewerFirstOrders();
    FirstOfSorted(views, n, NewerFirst);
    var t := Newest(views, n);
    assert t == Take(SortBy(views, NewerFirst), n);
    forall v, w | w in views && w !in t && v in t
      ensures v.log.timestamp >= w.log.timestamp
    {
      assert NewerFirst(v, w);
    }
  }

  function OfTenant(id: nat): LogRow -> bool { (l: LogRow) => l.tenantId == Some(id) }

  function OfType(logType: string): LogRow -> bool { (l: LogRow) => l.logType == logType }

  // ---------------------------------------------------------------------------
  // GET /

  /** `SELECT id FROM tenants WHERE name = ?`, first row. */
  function TenantNamed(tenants: seq<Tenant>, name: string): (r: Option<Tenant>)
    ensures r.Some? ==> r.value in tenants && r.value.name == name
    ensures r.None? <==> forall i :: 0 <= i < |tenants| ==> tenants[i].name != name
  {
    if tenants == [] then None
    else if tenants[0].name == name then Some(tenants[0])
    else TenantNamed(tenants[1..], name)
  }

  /** `GET /`: a tenant sees the newest thousand rows of the tenant named like
      its user, an admin the newest thousand of all rows. */
  function GetLogs(user: Claims, logs: seq<LogRow>, tenants: seq<Tenant>, sources: seq<Source>,
                   fails: bool): (r: Reply<seq<LogView>>)
    ensures user.role != "tenant" && user.role != "admin" ==> r == Error(403, InvalidRole)
    ensures r == Error(404, TenantNotFound) <==>
      user.role == "tenant" && !fails && TenantNamed(tenants, user.username).None?
    ensures (user.role == "tenant" || user.role == "admin") && fails ==> r == Error(500, ServerError)
    ensures r.Ok? <==>
      !fails && (user.role == "admin" || (user.role == "tenant" && TenantNamed(tenants, user.username).Some?))
    ensures r.Ok? ==> |r.body| <= MaxRows
  {
    if user.role == "tenant" then
      if fails then Error(500, ServerError)
      else match TenantNamed(tenants, user.username)
        case None => Error(404, TenantNotFound)
        case Some(t) => Ok(Newest(WithNames(Filter(logs, OfTenant(t.id)), tenants, sources), MaxRows))
    else if user.role == "admin" then
      if fails then Error(500, ServerError)
      else Ok(Newest(WithNames(logs, tenants, sources), MaxRows))
    else Error(403, InvalidRole)
  }

  /** A tenant caller only receives rows of its own tenant, newest first,
      as many as the thousand-row limit allows, and no row of that tenant it
      misses is newer than one it receives. */
  lemma TenantSeesOwnRows(user: Claims, logs: seq<LogRow>, tenants: seq<Tenant>, sources: seq<Source>)
    requires user.role == "tenant" && TenantNamed(tenants, user.username).Some?
    ensures GetLogs(user, logs, tenants, sources, false).Ok?
    ensures forall v :: v in GetLogs(user, logs, tenants, sources, false).body ==>
      v.log in logs && v.log.tenantId == Some(TenantNamed(tenants, user.username).value.id)
    ensures SortedBy(GetLogs(user, logs, tenants, sources, false).body, NewerFirst)
    ensures |GetLogs(user, logs, tenants, sources, false).body| ==
      Min(MaxRows, Count(logs, OfTenant(TenantNamed(tenants, user.username).value.id)))
    ensures forall l, v ::
      l in logs && l.tenantId == Some(TenantNamed(tenants, user.username).value.id)
      && v in GetLogs(user, logs, tenants, sources, false).body && v.log.timestamp < l.timestamp ==>
        exists w :: w in GetLogs(user, logs, tenants, sources, false).body && w.log == l
  {
    var t := TenantNamed(tenants, user.username).value;
    var own := Filter(logs, OfTenant(t.id));
    var views := WithNames(own, tenants, sources);
    var body := GetLogs(user, logs, tenants, sources, false).body;
    NewestCorrect(views, MaxRows);
    assert body == Newest(views, MaxRows);
    forall v | v in body
      ensures v.log in logs && v.log.tenantId == Some(t.id)
    {
      var i :| 0 <= i < |views| && views[i] == v;
      assert own[i] in own;
    }
    forall l, v | l in logs && l.tenantId == Some(t.id) && v in body && v.log.timestamp < l.timestamp
      ensures exists w :: w in body && w.log == l
    {
      FilterMembers(logs, OfTenant(t.id), l);
      var i :| 0 <= i < |own| && own[i] == l;
      assert views[i] in views;
      assert views[i] in body;
    }
  }

  /** An admin receives the newest thousand rows of the whole table. */
  lemma AdminSeesNewest(user: Claims, logs: seq<LogRow>, tenants: seq<Tenant>, sources: seq<Source>)
    requires user.role == "admin"
    ensures GetLogs(user, logs, tenants, sources, false) ==
      Ok(Newest(WithNames(logs, tenants, sources), MaxRows))
    ensures |GetLogs(user, logs, tenants, sources, false).body| == Min(MaxRows, |logs|)
  {
    NewestCorrect(WithNames(logs, tenants, sources), MaxRows);
  }

  // ---------------------------------------------------------------------------
  // GET /all-logs, /firewall-logs, /network-logs

  /** A page of rows with the total the count query reports. */
  datatype Page = Page(logs: seq<LogView>, total: nat, limit: nat, offset: nat, logType: Option<string>)

  /** `const { limit = 100, offset = 0 } = req.query` */
  function LimitOf(limit: Option<nat>): nat { if limit.Some? then limit.value else DefaultLimit }

  function OffsetOf(offset: Option<nat>): nat { if offset.Some? then offset.value else 0 }

  /** `GET /all-logs`, admin only. */
  function AllLogs(user: Claims, logs: seq<LogRow>, tenants: seq<Tenant>, sources: seq<Source>,
                   limit: Option<nat>, offset: Option<nat>, fails: bool): (r: Reply<Page>)
    ensures user.role != "admin" ==> r == Error(403, AccessDenied)
    ensures user.role == "admin" && fails ==> r == Error(500, ServerError)
    ensures r.Ok? <==> user.role == "admin" && !fails
    ensures r.Ok? ==> r.body.total == |logs| && |r.body.logs| <= LimitOf(limit)
    ensures r.Ok? ==>
      |r.body.logs| == if OffsetOf(offset) >= |logs| then 0 else Min(LimitOf(limit), |logs| - OffsetOf(offset))
    ensures r.Ok? ==> forall i :: 0 <= i < |r.body.logs| ==>
      OffsetOf(offset) + i < |logs| && r.body.logs[i] == SortBy(WithNames(logs, tenants, sources), NewerFirst)[OffsetOf(offset) + i]
  {
    if user.role != "admin" then Error(403, AccessDenied)
    else if fails then Error(500, ServerError)
    else
      var lim, off := LimitOf(limit), OffsetOf(offset);
      Ok(Page(LimitOffset(SortBy(WithNames(logs, tenants, sources), NewerFirst), lim, off), |logs|, lim, off, None))
  }

  /** The rows of one type with their source names, newest first: what
      `WHERE l.log_type = ? ORDER BY l.timestamp DESC` selects. */
  function TypedRows(logType: string, logs: seq<LogRow>, sources: seq<Source>): seq<LogView>
  {
    SortBy(WithSource(Filter(logs, OfType(logType)), sources), NewerFirst)
  }

  /** `GET /firewall-logs` and `GET /network-logs`: no role check, so the
      answer does not depend on the caller. */
  function TypedLogs(logType: string, logs: seq<LogRow>, sources: seq<Source>,
                     limit: Option<nat>, offset: Option<nat>, fails: bool): (r: Reply<Page>)
    ensures r.Error? <==> fails
    ensures r.Ok? ==> r.body.total == Count(logs, OfType(logType)) && |r.body.logs| <= LimitOf(limit)
    ensures r.Ok? ==>
      |r.body.logs| == if OffsetOf(offset) >= r.body.total then 0 else Min(LimitOf(limit), r.body.total - OffsetOf(offset))
    ensures r.Ok? ==> forall i :: 0 <= i < |r.body.logs| ==>
      OffsetOf(offset) + i < r.body.total && r.body.logs[i] == TypedRows(logType, logs, sources)[OffsetOf(offset) + i]
    ensures r.Ok? ==> forall v :: v in r.body.logs ==> v.log in logs && v.log.logType == logType
  {
    if fails then Error(500, ServerError)
    else
      TypedRowsOfType(logType, logs, sources);
      var page := LimitOffset(TypedRows(logType, logs, sources), LimitOf(limit), OffsetOf(offset));
      Ok(Page(page, Count(logs, OfType(logType)), LimitOf(limit), OffsetOf(offset), Some(logType)))
  }

  /** Every row of that type appears once in the sorted rows, and only
      those. */
  lemma TypedRowsOfType(logType: string, logs: seq<LogRow>, sources: seq<Source>)
    ensures |TypedRows(logType, logs, sources)| == Count(logs, OfType(logType))
    ensures forall v :: v in TypedRows(logType, logs, sources) ==> v.log in logs && v.log.logType == logType
  {
    var typed := Filter(logs, OfType(logType));
    forall v | v in TypedRows(logType, logs, sources) ensures v.log in typed {
      SortByMembers(WithSource(typed, sources), NewerFirst, v);
      var i :| 0 <= i < |typed| && WithSource(typed, sources)[i] == v;
    }
  }

  /** A typed page is newest first, and the first page holds the newest
      `limit` rows of that type: none of that type left out is newer than
      a row on it. */
  lemma TypedPageNewest(logType: string, logs: seq<LogRow>, sources: seq<Source>,
                        limit: Option<nat>, offset: Option<nat>)
    ensures SortedBy(TypedLogs(logType, logs, sources, limit, offset, false).body.logs, NewerFirst)
    ensures offset.None? ==> forall l, v ::
      l in logs && l.logType == logType && v in TypedLogs(logType, logs, sources, limit, offset, false).body.logs
      && v.log.timestamp < l.timestamp ==>
        exists w :: w in TypedLogs(logType, logs, sources, limit, offset, false).body.logs && w.log == l
  {
    var typed := Filter(logs, OfType(logType));
    var views := WithSource(typed, sources);
    var sorted := TypedRows(logType, logs, sources);
    var page := TypedLogs(logType, logs, sources, limit, offset, false).body.logs;
    NewerFirstOrders();
    SortBySorted(views, NewerFirst);
    forall i, j | 0 <= i < j < |page| ensures NewerFirst(page[i], page[j]) {
      assert page[i] == sorted[OffsetOf(offset) + i] && page[j] == sorted[OffsetOf(offset) + j];
    }
    if offset.None? {
      NewestCorrect(views, LimitOf(limit));
      assert page == Newest(views, LimitOf(limit));
      forall l, v | l in logs && l.logType == logType && v in page && v.log.timestamp < l.timestamp
        ensures exists w :: w in page && w.log == l
      {
        FilterMembers(logs, OfType(logType), l);
        var i :| 0 <= i < |typed| && typed[i] == l;
        assert views[i] in views;
        assert views[i] in page;
      }
    }
  }

  /** Consecutive pages of `limit` rows list every row once, in order: two
      pages in a row are the page of twice the size, and a page followed by
      the rest is everything from its offset. */
  lemma PagesTile(s: seq<LogView>, lim: nat, off: nat)
    ensures LimitOffset(s, lim, off) + LimitOffset(s, lim, off + lim) == LimitOffset(s, 2 * lim, off)
    ensures off + lim <= |s| ==> LimitOffset(s, lim, off) + LimitOffset(s, |s| - (off + lim), off + lim) == s[off..]
  {
    var a, b, c := LimitOffset(s, lim, off), LimitOffset(s, lim, off + lim), LimitOffset(s, 2 * lim, off);
    assert |a + b| == |c|;
    forall i | 0 <= i < |c| ensures (a + b)[i] == c[i] {
      if i >= |a| {
        assert b[i - |a|] == s[off + lim + (i - |a|)];
      }
    }
  }

  // ---------------------------------------------------------------------------
  // GET /tenants and /sources: ORDER BY name

  /** Code-point order on names. */
  predicate NameLe(a: string, b: string)
  {
    a == [] || (b != [] && (a[0] < b[0] || (a[0] == b[0] && NameLe(a[1..], b[1..]))))
  }

  lemma {:induction false} NameLeTotal(a: string, b: string)
    ensures NameLe(a, b) || NameLe(b, a)
  {
    if a != [] && b != [] && a[0] == b[0] {
      NameLeTotal(a[1..], b[1..]);
    }
  }

  lemma {:induction false} NameLeTrans(a: string, b: string, c: string)
    requires NameLe(a, b) && NameLe(b, c)
    ensures NameLe(a, c)
  {
    if a != [] && b != [] && c != [] && a[0] == b[0] && b[0] == c[0] {
      NameLeTrans(a[1..], b[1..], c[1..]);
    }
  }

  predicate ByName(a: Tenant, b: Tenant) { NameLe(a.name, b.name) }

  lemma ByNameOrders()
    ensures TotalPreorder(ByName)
  {
    forall a: Tenant, b: Tenant
      ensures ByName(a, b) || ByName(b, a)
    {
      NameLeTotal(a.name, b.name);
    }
    forall a: Tenant, b: Tenant, c: Tenant | ByName(a, b) && ByName(b, c)
      ensures ByName(a, c)
    {
      NameLeTrans(a.name, b.name, c.name);
    }
  }

  /** `GET /tenants`, admin only. */
  function ListTenants(user: Claims, tenants: seq<Tenant>, fails: bool): (r: Reply<seq<Tenant>>)
    ensures user.role != "admin" ==> r == Error(403, AccessDenied)
    ensures user.role == "admin" && fails ==> r == Error(500, ServerError)
    ensures r.Ok? <==> user.role == "admin" && !fails
    ensures r.Ok? ==> multiset(r.body) == multiset(tenants)
  {
    if user.role != "admin" then Error(403, AccessDenied)
    else if fails then Error(500, ServerError)
    else Ok(SortBy(tenants, ByName))
  }

  /** An admin receives every tenant once, in ascending order of name. */
  lemma TenantsByName(user: Claims, tenants: seq<Tenant>)
    requires user.role == "admin"
    ensures ListTenants(user, tenants, false).Ok?
    ensures SortedBy(ListTenants(user, tenants, false).body, ByName)
    ensures multiset(ListTenants(user, tenants, false).body) == multiset(tenants)
  {
    ByNameOrders();
    SortBySorted(tenants, ByName);
  }

  /** One row of `/sources`: the source and `COUNT(l.id)`. */
  datatype SourceCount = SourceCount(source: Source, logCount: nat)

  function OfSource(id: nat): LogRow -> bool { (l: LogRow) => l.sourceId == Some(id) }

  function Counted(sources: seq<Source>, logs: seq<LogRow>): (r: seq<SourceCount>)
    ensures |r| == |sources|
    ensures forall i :: 0 <= i < |r| ==> r[i].source == sources[i] && r[i].logCount == Count(logs, OfSource(sources[i].id))
  {
    if sources == [] then []
    else [SourceCount(sources[0], Count(logs, OfSource(sources[0].id)))] + Counted(sources[1..], logs)
  }

  predicate BySourceName(a: SourceCount, b: SourceCount) { NameLe(a.source.name, b.source.name) }

  /** `GET /sources`: every source with its number of logs, a source without
      logs included with 0 (the `LEFT JOIN` keeps it); no role check. */
  function ListSources(logs: seq<LogRow>, sources: seq<Source>, fails: bool): (r: Reply<seq<SourceCount>>)
    ensures r.Error? <==> fails
    ensures r.Ok? ==> |r.body| == |sources|
    ensures r.Ok? ==> forall c :: c in r.body ==> c.source in sources && c.logCount == Count(logs, OfSource(c.source.id))
  {
    if fails then Error(500, ServerError)
    else
      var counted := Counted(sources, logs);
      assert forall c :: c in SortBy(counted, BySourceName) ==> c in counted by {
        forall c | c in SortBy(counted, BySourceName) ensures c in counted {
          SortByMembers(counted, BySourceName, c);
        }
      }
      Ok(SortBy(counted, BySourceName))
  }

  lemma BySourceNameOrders()
    ensures TotalPreorder(BySourceName)
  {
    forall a: SourceCount, b: SourceCount
      ensures BySourceName(a, b) || BySourceName(b, a)
    {
      NameLeTotal(a.source.name, b.source.name);
    }
    forall a: SourceCount, b: SourceCount, c: SourceCount | BySourceName(a, b) && BySourceName(b, c)
      ensures BySourceName(a, c)
    {
      NameLeTrans(a.source.name, b.source.name, c.source.name);
    }
  }

  /** Every source is listed, in ascending order of name. */
  lemma SourcesListed(logs: seq<LogRow>, sources: seq<Source>, i: nat)
    requires i < |sources|
    ensures SortedBy(ListSources(logs, sources, false).body, BySourceName)
    ensures SourceCount(sources[i], Count(logs, OfSource(sources[i].id))) in ListSources(logs, sources, false).body
  {
    var counted := Counted(sources, logs);
    BySourceNameOrders();
    SortBySorted(counted, BySourceName);
    assert counted[i] in counted;
    SortByMembers(counted, BySourceName, counted[i]);
  }

  // ---------------------------------------------------------------------------
  // GET /tenant/:id and logsBySource

  /** `log.source_name || 'unknown'` */
  function SourceLabel(v: LogView): string
  {
    if v.sourceName.Some? && v.sourceName.value != "" then v.sourceName.value else "unknown"
  }

  function LabelsOf(views: seq<LogView>): (r: seq<string>)
    ensures |r| == |views| && forall i :: 0 <= i < |views| ==> r[i] == SourceLabel(views[i])
  {
    if views == [] then [] else [SourceLabel(views[0])] + LabelsOf(views[1..])
  }

  function HasLabel(k: string): LogView -> bool { v => SourceLabel(v) == k }

  /** One key of `logsBySource` with its array. */
  datatype Group = Group(source: string, logs: seq<LogView>)

  /** The groups of the keys `keys`, each with the rows carrying its label. */
  function GroupsFor(views: seq<LogView>, keys: seq<string>): (r: seq<Group>)
    ensures |r| == |keys| && forall j :: 0 <= j < |keys| ==> r[j].source == keys[j]
  {
    if keys == [] then [] else [Group(keys[0], Filter(views, HasLabel(keys[0])))] + GroupsFor(views, keys[1..])
  }

  /** The `j`-th group is the `j`-th key with the rows carrying it. */
  lemma {:induction false} GroupsForAt(views: seq<LogView>, keys: seq<string>, j: nat)
    requires j < |keys|
    ensures GroupsFor(views, keys)[j] == Group(keys[j], Filter(views, HasLabel(keys[j])))
  {
    if j > 0 {
      GroupsForAt(views, keys[1..], j - 1);
    }
  }

  /** `logsBySource`: one key per label in order of first appearance (the
      order in which the `forEach` creates them), each with its rows. */
  function LogsBySource(views: seq<LogView>): seq<Group>
  {
    GroupsFor(views, Dedup(LabelsOf(views)))
  }

  /** A label that is not among the rows' labels selects no row. */
  lemma {:induction false} NoRowsWithoutKey(views: seq<LogView>, k: string)
    requires k !in LabelsOf(views)
    ensures Filter(views, HasLabel(k)) == []
  {
    if views != [] {
      assert LabelsOf(views)[0] == SourceLabel(views[0]);
      assert LabelsOf(views[1..]) == LabelsOf(views)[1..];
      NoRowsWithoutKey(views[1..], k);
    }
  }

  /** A row appended to the input joins the selection of its label only. */
  lemma FilterSnoc(views: seq<LogView>, v: LogView, key: string)
    ensures Filter(views + [v], HasLabel(key)) ==
      Filter(views, HasLabel(key)) + (if SourceLabel(v) == key then [v] else [])
  {
    FilterAppend(views, [v], HasLabel(key));
    assert [v][1..] == [];
  }

  /** The keys after one more row. */
  lemma KeysSnoc(views: seq<LogView>, v: LogView)
    ensures Dedup(LabelsOf(views + [v])) ==
      if SourceLabel(v) in Dedup(LabelsOf(views)) then Dedup(LabelsOf(views))
      else Dedup(LabelsOf(views)) + [SourceLabel(v)]
  {
    var s := LabelsOf(views + [v]);
    assert s == LabelsOf(views) + [SourceLabel(v)];
    assert s[..|s| - 1] == LabelsOf(views);
  }

  /** `logsBySource[source]`: the index of the key, or the number of keys
      when it is absent. */
  function KeyIndex(groups: seq<Group>, key: string): (k: nat)
    ensures k <= |groups|
    ensures forall j :: 0 <= j < k ==> groups[j].source != key
    ensures k < |groups| ==> groups[k].source == key
  {
    if groups == [] then 0
    else if groups[0].source == key then 0
    else 1 + KeyIndex(groups[1..], key)
  }

  /** The groups of consecutive key lists are consecutive. */
  lemma {:induction false} GroupsForAppend(views: seq<LogView>, a: seq<string>, b: seq<string>)
    ensures GroupsFor(views, a + b) == GroupsFor(views, a) + GroupsFor(views, b)
  {
    if a != [] {
      assert (a + b)[0] == a[0] && (a + b)[1..] == a[1..] + b;
      GroupsForAppend(views, a[1..], b);
    } else {
      assert a + b == b;
    }
  }

  /** A row appended to the input leaves the groups of other labels as they
      were. */
  lemma {:induction false} GroupsForUntouched(views: seq<LogView>, v: LogView, keys: seq<string>)
    requires SourceLabel(v) !in keys
    ensures GroupsFor(views + [v], keys) == GroupsFor(views, keys)
  {
    if keys != [] {
      FilterSnoc(views, v, keys[0]);
      var f := Filter(views, HasLabel(keys[0]));
      assert f + [] == f;
      assert Filter(views + [v], HasLabel(keys[0])) == f;
      GroupsForUntouched(views, v, keys[1..]);
      assert GroupsFor(views + [v], keys) == [Group(keys[0], f)] + GroupsFor(views + [v], keys[1..]);
    }
  }

  /** One `forEach` step when the row's label is new: a new array at the end
      of the object. */
  lemma GroupStepNew(views: seq<LogView>, v: LogView, groups: seq<Group>)
    requires groups == LogsBySource(views) && KeyIndex(groups, SourceLabel(v)) == |groups|
    ensures LogsBySource(views + [v]) == groups + [Group(SourceLabel(v), [v])]
  {
    var l := SourceLabel(v);
    var keys := Dedup(LabelsOf(views));
    KeysSnoc(views, v);
    assert l !in keys;
    assert LogsBySource(views + [v]) == GroupsFor(views + [v], keys + [l]);
    GroupsForAppend(views + [v], keys, [l]);
    GroupsForUntouched(views, v, keys);
    FilterSnoc(views, v, l);
    NoRowsWithoutKey(views, l);
    assert Filter(views + [v], HasLabel(l)) == [v];
    assert GroupsFor(views + [v], [l]) == [Group(l, [v])];
  }

  /** The groups of keys around a key `l`. */
  lemma GroupsForAround(views: seq<LogView>, a: seq<string>, l: string, b: seq<string>)
    ensures GroupsFor(views, a + [l] + b) ==
      GroupsFor(views, a) + [Group(l, Filter(views, HasLabel(l)))] + GroupsFor(views, b)
  {
    GroupsForAppend(views, a + [l], b);
    GroupsForAppend(views, a, [l]);
    assert [l][1..] == [];
  }

  /** A row appended to the input goes to the end of its key's group. */
  lemma GroupsForSnoc(views: seq<LogView>, v: LogView, keys: seq<string>, k: nat)
    requires k < |keys| && keys[k] == SourceLabel(v)
    requires keys[k] !in keys[..k] && keys[k] !in keys[k + 1..]
    ensures GroupsFor(views + [v], keys) ==
      GroupsFor(views, keys)[k := Group(keys[k], GroupsFor(views, keys)[k].logs + [v])]
  {
    var l, a, b := keys[k], keys[..k], keys[k + 1..];
    SplitAt(keys, k);
    var f := Filter(views, HasLabel(l));
    FilterSnoc(views, v, l);
    GroupsForAround(views + [v], a, l, b);
    GroupsForAround(views, a, l, b);
    GroupsForUntouched(views, v, a);
    GroupsForUntouched(views, v, b);
    UpdateMiddle(GroupsFor(views, a), Group(l, f), GroupsFor(views, b), Group(l, f + [v]));
  }

  /** One `forEach` step when the row's label is the `k`-th key: the row
      goes to the end of that array. */
  lemma GroupStepOld(views: seq<LogView>, v: LogView, groups: seq<Group>, k: nat)
    requires groups == LogsBySource(views) && k == KeyIndex(groups, SourceLabel(v)) < |groups|
    ensures LogsBySource(views + [v]) == groups[k := Group(groups[k].source, groups[k].logs + [v])]
  {
    var keys := Dedup(LabelsOf(views));
    KeysSnoc(views, v);
    assert keys[k] == SourceLabel(v);
    DistinctAround(keys, k);
    GroupsForSnoc(views, v, keys, k);
  }

  /** The names `Object.prototype` supplies to every object literal. Read
      through `logsBySource[source]` they give a truthy value that is not an
      array, so the `push` that follows throws. */
  const InheritedKeys: set<string> := {
    "constructor", "__proto__", "__defineGetter__", "__defineSetter__",
    "__lookupGetter__", "__lookupSetter__", "hasOwnProperty", "isPrototypeOf",
    "propertyIsEnumerable", "toLocaleString", "toString", "valueOf"}

  predicate Inherited(key: string) { key in InheritedKeys }

  /** The `forEach` loop: `None` when a row's label names an inherited
      property, where the `push` throws; otherwise the grouping. */
  method GroupBySource(views: seq<LogView>) returns (groups: Option<seq<Group>>)
    ensures groups.None? <==> exists i :: 0 <= i < |views| && Inherited(SourceLabel(views[i]))
    ensures groups.Some? ==> groups.value == LogsBySource(views)
  {
    var acc: seq<Group> := [];
    for i := 0 to |views|
      invariant acc == LogsBySource(views[..i])
      invariant forall j :: 0 <= j < i ==> !Inherited(SourceLabel(views[j]))
    {
      var v := views[i];
      if Inherited(SourceLabel(v)) {
        return None;
      }
      assert forall j :: 0 <= j < i + 1 ==> !Inherited(SourceLabel(views[j]));
      var k := KeyIndex(acc, SourceLabel(v));
      PrefixSnoc(views, i);
      if k == |acc| {
        GroupStepNew(views[..i], v, acc);
        acc := acc + [Group(SourceLabel(v), [v])];
      } else {
        GroupStepOld(views[..i], v, acc, k);
        acc := acc[k := Group(acc[k].source, acc[k].logs + [v])];
      }
    }
    assert views[..|views|] == views;
    groups := Some(acc);
  }

  /** The keys are distinct, and every row lands in exactly one array: the
      one of its label. */
  lemma EveryRowInOneGroup(views: seq<LogView>)
    ensures forall j1, j2 :: 0 <= j1 < j2 < |LogsBySource(views)| ==>
      LogsBySource(views)[j1].source != LogsBySource(views)[j2].source
    ensures forall i :: 0 <= i < |views| ==>
      exists j :: 0 <= j < |LogsBySource(views)| && views[i] in LogsBySource(views)[j].logs
    ensures forall i, j :: 0 <= i < |views| && 0 <= j < |LogsBySource(views)| && views[i] in LogsBySource(views)[j].logs ==>
      LogsBySource(views)[j].source == SourceLabel(views[i])
  {
    var g := LogsBySource(views);
    var keys := Dedup(LabelsOf(views));
    forall j1, j2 | 0 <= j1 < j2 < |g|
      ensures g[j1].source != g[j2].source
    {
      GroupsForAt(views, keys, j1);
      GroupsForAt(views, keys, j2);
    }
    forall i | 0 <= i < |views|
      ensures exists j :: 0 <= j < |g| && views[i] in g[j].logs
    {
      assert LabelsOf(views)[i] in keys;
      var j :| 0 <= j < |keys| && keys[j] == SourceLabel(views[i]);
      GroupsForAt(views, keys, j);
      FilterMembers(views, HasLabel(keys[j]), views[i]);
      assert views[i] in g[j].logs;
    }
    forall i, j | 0 <= i < |views| && 0 <= j < |g| && views[i] in g[j].logs
      ensures g[j].source == SourceLabel(views[i])
    {
      GroupsForAt(views, keys, j);
      FilterMembers(views, HasLabel(keys[j]), views[i]);
    }
  }

  /** Each array keeps the rows' order, so newest-first rows give newest-first
      arrays. */
  lemma GroupsKeepOrder(views: seq<LogView>, j: nat)
    requires j < |LogsBySource(views)|
    ensures Subseq(LogsBySource(views)[j].logs, views)
    ensures SortedBy(views, NewerFirst) ==> SortedBy(LogsBySource(views)[j].logs, NewerFirst)
  {
    GroupsForAt(views, Dedup(LabelsOf(views)), j);
    var k := LogsBySource(views)[j].source;
    FilterIsSubseq(views, HasLabel(k));
    if SortedBy(views, NewerFirst) {
      FilterKeepsSorted(views, HasLabel(k), NewerFirst);
    }
  }

  /** The body of a `/tenant/:id` answer. */
  datatype TenantLogs = TenantLogs(tenant: Tenant, logsBySource: seq<Group>)

  /** The rows `/tenant/:id` selects: the tenant's newest thousand, with
      their source names. */
  function TenantRows(id: nat, logs: seq<LogRow>, sources: seq<Source>): seq<LogView>
  {
    Newest(WithSource(Filter(logs, OfTenant(id)), sources), MaxRows)
  }

  /** `GET /tenant/:id`, admin only: the tenant and its newest thousand rows
      grouped by source name; a row whose label is an inherited property name
      makes the grouping throw, which the route answers with 500. */
  method GetTenantLogs(user: Claims, id: nat, logs: seq<LogRow>, tenants: seq<Tenant>, sources: seq<Source>,
                       fails: bool) returns (r: Reply<TenantLogs>)
    ensures user.role != "admin" ==> r == Error(403, AccessDenied)
    ensures r == Error(404, TenantNotFound) <==> user.role == "admin" && !fails && TenantById(tenants, Some(id)).None?
    ensures r.Ok? <==> user.role == "admin" && !fails && TenantById(tenants, Some(id)).Some?
                       && forall v :: v in TenantRows(id, logs, sources) ==> !Inherited(SourceLabel(v))
    ensures r.Error? && r.status != 403 && r.status != 404 ==> r == Error(500, ServerError)
    ensures r.Ok? ==> Some(r.body.tenant) == TenantById(tenants, Some(id))
    ensures r.Ok? ==> r.body.logsBySource == LogsBySource(TenantRows(id, logs, sources))
  {
    if user.role != "admin" {
      return Error(403, AccessDenied);
    }
    if fails {
      return Error(500, ServerError);
    }
    var tenant := TenantById(tenants, Some(id));
    if tenant.None? {
      return Error(404, TenantNotFound);
    }
    var rows := TenantRows(id, logs, sources);
    var groups := GroupBySource(rows);
    if groups.None? {
      return Error(500, ServerError);
    }
    r := Ok(TenantLogs(tenant.value, groups.value));
  }
}
