/** The MySQL tables the backend reads and writes, as sequences of rows in
    table order, and the answers the Express routes send. Timestamps are whole
    seconds; `NULL` columns are `None`. */
module Store {
  import opened Common

  datatype LogRow = LogRow(
    id: nat,
    timestamp: int,
    createdAt: Option<int>,
    logType: string,
    eventType: Option<string>,
    severity: Option<string>,
    message: Option<string>,
    srcIp: Option<string>,
    dstIp: Option<string>,
    user: Option<string>,
    host: Option<string>,
    tenantId: Option<nat>,
    sourceId: Option<nat>)

  datatype Tenant = Tenant(id: nat, name: string, createdAt: int)

  datatype Source = Source(id: nat, name: string, description: Option<string>, createdAt: int)

  /** The `details` column: the JSON a client posted, or the object the
      failed-login sweep writes. */
  datatype Details =
    | Posted(json: Value)
    | LoginDetails(attemptCount: nat, users: seq<string>, tenant: Option<string>,
                   timeWindow: string, timestamp: int)

  datatype AlertRow = AlertRow(
    id: nat,
    alertType: string,
    message: string,
    ipAddress: Option<string>,
    details: Details,
    createdAt: int)

  datatype User = User(id: nat, username: string, password: string, role: string)

  /** The tenant a `LEFT JOIN tenants t ON l.tenant_id = t.id` pairs a row with. */
  function TenantById(tenants: seq<Tenant>, id: Option<nat>): (r: Option<Tenant>)
    ensures r.Some? ==> r.value in tenants && id == Some(r.value.id)
    ensures r.None? ==> id.None? || forall t :: t in tenants ==> t.id != id.value
  {
    if id.None? || tenants == [] then None
    else if tenants[0].id == id.value then Some(tenants[0])
    else TenantById(tenants[1..], id)
  }

  /** `t.name` of that join, `NULL` when no tenant matches. */
  function TenantName(tenants: seq<Tenant>, id: Option<nat>): Option<string>
  {
    match TenantById(tenants, id)
    case None => None
    case Some(t) => Some(t.name)
  }

  function SourceById(sources: seq<Source>, id: Option<nat>): (r: Option<Source>)
    ensures r.Some? ==> r.value in sources && id == Some(r.value.id)
    ensures r.None? ==> id.None? || forall s :: s in sources ==> s.id != id.value
  {
    if id.None? || sources == [] then None
    else if sources[0].id == id.value then Some(sources[0])
    else SourceById(sources[1..], id)
  }

  function SourceName(sources: seq<Source>, id: Option<nat>): Option<string>
  {
    match SourceById(sources, id)
    case None => None
    case Some(s) => Some(s.name)
  }

  predicate AlertIdsFresh(alerts: seq<AlertRow>, nextId: nat)
  {
    (forall i :: 0 <= i < |alerts| ==> alerts[i].id < nextId)
    && forall i, j :: 0 <= i < j < |alerts| ==> alerts[i].id != alerts[j].id
  }

  /** The `unique: true` constraint on `username`. */
  predicate UsernamesUnique(users: seq<User>)
  {
    forall i, j :: 0 <= i < j < |users| ==> users[i].username != users[j].username
  }

  predicate UserIdsFresh(users: seq<User>, nextId: nat)
  {
    (forall i :: 0 <= i < |users| ==> users[i].id < nextId)
    && forall i, j :: 0 <= i < j < |users| ==> users[i].id != users[j].id
  }

  /** The database: one sequence per table and the AUTO_INCREMENT counters of
      the tables the backend inserts into. */
  class Database {
    var logs: seq<LogRow>
    var alerts: seq<AlertRow>
    var tenants: seq<Tenant>
    var sources: seq<Source>
    var users: seq<User>
    var nextAlertId: nat
    var nextUserId: nat

    ghost predicate Valid()
      reads this
    {
      AlertIdsFresh(alerts, nextAlertId) && UsernamesUnique(users) && UserIdsFresh(users, nextUserId)
    }

    constructor (logs: seq<LogRow>, tenants: seq<Tenant>, sources: seq<Source>)
      ensures Valid()
      ensures this.logs == logs && this.tenants == tenants && this.sources == sources
      ensures alerts == [] && users == [] && nextAlertId == 1 && nextUserId == 1
    {
      this.logs := logs;
      this.tenants := tenants;
      this.sources := sources;
      alerts := [];
      users := [];
      nextAlertId := 1;
      nextUserId := 1;
    }
  }

  /** The payload of a signed token, `{ id, username, role }`; the auth
      middleware hands it to the routes as `req.user`. */
  datatype Claims = Claims(id: nat, username: string, role: string)

  /** What a route answers: a body, or an error status with its message. */
  datatype Reply<T> = Ok(body: T) | Error(status: nat, message: string)

  const ServerError := "Server error"
}
