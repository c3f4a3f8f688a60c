# Log management: a verified model of the core

This project models, in Dafny, the part of the log-management system whose
behaviour can be checked:

- the ingest service's two syslog parsers, for firewall and network-device
  lines;
- the backend's failed-login correlation sweep;
- the retention cleanup and its statistics;
- the access decisions of the REST routes (logs, alerts, retention, signup
  and login, and the token middleware);
- the client-side computations of the dashboard, the data page and the
  alerts page: chart counters, statistics, filters, search and pagination.

## How the system is represented

Each database table is a sequence of records held by one `Database` object
(`Store`). Operations that change tables are methods on it:

- the security sweep;
- the retention cleanup;
- `POST /alerts` and signup.

Read-only routes are functions over the sequences. Backend timestamps are
integers counting whole seconds (the `DATETIME` columns hold no fraction). In
the frontend a `Date` is a local calendar date with the milliseconds since
midnight (`DateBounds.Instant`), and `new Date(x)` is the parameter `toDate`.

Every place where the system depends on something outside the model becomes
a parameter:

- `toIso`: the time-text conversion;
- `verify` and `sign`: JWT;
- `matches` and `hash`: bcrypt;
- `toDate`: `new Date(...)`, with `None` standing for an Invalid Date;
- `now`: the clock;
- a failure argument: the query or call that throws.

A frontend row is a JavaScript object, modelled as `map<string, Value>`.
`Value` covers `null`, booleans, numbers, strings and other objects. This
is what lets truthiness, `||` defaults, `===` and `==` follow the
language's rules.

Structure:

- Pure code is written as datatypes, functions and lemmas.
- Loops are methods, proved against a specification function:
  - `CountKeys`, `CalculateStats` and `Timeline` (the `forEach` counters);
  - `GroupBySource` (the `logsBySource` dictionary);
  - `InsertAlerts` (the sweep loop).
- The three pages are classes whose fields are the React state. Each state
  setter is a method with `modifies this`.

## Model

| member | source | states |
|---|---|---|
| Parsers.Header | ingest/parsers.js:1 | a match of `^<\d+>` starts with `<`, a digit run and `>`, and the time group starts right after it |
| Parsers.KeyedToken | ingest/parsers.js:1 | a `\s+key=(\S+)` group is a non-empty run of non-blanks of the group's class, ending at a blank or the end of the line |
| Parsers.ReadTokens | ingest/parsers.js:1 | a sequence of keyed groups yields one non-empty, blank-free value per group |
| Parsers.LazyMsgLeast | ingest/parsers.js:1 | the lazy `msg` group is the shortest: no earlier end lets `\s+policy=(\S+)$` match |
| Parsers.LazyMsgNoTrailingBlank | ingest/parsers.js:1 | a non-empty `msg` never ends in a blank |
| Parsers.MsgPolicy | ingest/parsers.js:1 | `msg` holds no line terminator, and `policy` is a blank-free token that ends the line |
| Parsers.MatchFirewall | ingest/parsers.js:1 | a firewall match has every group in its pattern's class, and the policy is a suffix of the line |
| Parsers.ParseFirewallLog | ingest/parsers.js:20-30 | the raw line is always kept; the result has its fields exactly when the pattern matches; `@timestamp` is the time text converted |
| Parsers.ReasonTail | ingest/parsers.js:3 | `reason` is the whole non-empty rest of the line, blanks included |
| Parsers.MatchNetwork | ingest/parsers.js:3 | a network match has every group in its pattern's class, and the reason is a suffix of the line |
| Parsers.ParseNetworkLog | ingest/parsers.js:34-42 | the raw line is always kept; the result has its fields exactly when the pattern matches; `@timestamp` is the time text converted |
| ParserProperties.HeaderRoundTrip | ingest/parsers.js:1 | the `<PRI>Mmm dd hh:mm:ss` prefix of a line is found, and gives back the time text |
| ParserProperties.KeyedTokenRoundTrip | ingest/parsers.js:1 | ` key=value` followed by a blank or the end reads back `value` |
| ParserProperties.ReadTokensRoundTrip | ingest/parsers.js:1 | the concatenated keyed groups read back every value, in order |
| ParserProperties.MsgPolicyRoundTrip | ingest/parsers.js:1 | ` msg=<m> policy=<p>` at the end of a line reads back `m` and `p`, even when `m` contains blanks or `policy=` |
| ParserProperties.NoPolicyBefore | ingest/parsers.js:1 | the policy tail cannot start before a blank that follows a non-blank |
| ParserProperties.ReasonRoundTrip | ingest/parsers.js:3 | ` reason=<r>` at the end of a line reads back `r` |
| ParserProperties.FirewallRoundTrip | ingest/parsers.js:1 | printing any well-formed firewall record as a line and matching it gives back the record |
| ParserProperties.ParseFirewallRoundTrip | ingest/parsers.js:20-30 | parsing a printed firewall line gives every field, the converted time and the line itself |
| ParserProperties.NetworkRoundTrip | ingest/parsers.js:3 | printing any well-formed network record as a line and matching it gives back the record |
| ParserProperties.ParseNetworkRoundTrip | ingest/parsers.js:34-42 | parsing a printed network line gives every field, the converted time and the line itself |
| ParserExamples.FirewallEndsNonBlank | ingest/parsers.js:1 | the anchored firewall pattern only matches a line whose last character is not blank |
| ParserExamples.NetworkEndsInDot | ingest/parsers.js:3 | the anchored network pattern only matches a line whose last character is not a line terminator |
| ParserExamples.NewlineGivesRaw | ingest/parsers.js:21-22 | a line ending in a newline falls back to `{ raw_log }` under both parsers |
| ParserExamples.PortsRoundTrip | ingest/parsers.js:27-28 | `spt` and `dpt` are the numeric values of the printed digit runs |
| ParserExamples.FirewallSampleParsed | ingest/parsers.js:20-30 | a sample firewall line is parsed into its fields |
| ParserExamples.NetworkSampleParsed | ingest/parsers.js:34-42 | a sample network line is parsed into its fields |
| AuthMiddleware.Split | backend/middleware/auth.js:8 | `split(' ')` yields at least one piece, and no piece contains a blank |
| AuthMiddleware.JoinSplit | backend/middleware/auth.js:8 | joining the pieces of a split gives the header back |
| AuthMiddleware.SplitJoin | backend/middleware/auth.js:8 | splitting blank-free pieces joined by blanks gives the pieces back |
| AuthMiddleware.Authenticate | backend/middleware/auth.js:3-19 | every refusal is a 401; a missing or empty header is "No token provided"; any other header whose second piece is missing or empty is "Invalid token format"; a token `verify` rejects is "Token invalid or expired"; the request passes exactly when the second piece is non-empty and `verify` accepts it, and the user is then the decoded payload |
| AuthMiddleware.SchemeOnly | backend/middleware/auth.js:8-9 | a header that is one word, such as `Bearer`, is refused as an invalid token format |
| AuthMiddleware.TokenIsSecondPiece | backend/middleware/auth.js:8-18 | the token is the second piece whatever the scheme word says, and `verify` alone decides |
| AuthMiddleware.DoubleBlank | backend/middleware/auth.js:8-9 | `Bearer  abc`, with two blanks, is refused as an invalid token format |
| AuthRoutes.FindUser | backend/routes/auth.js:13-14 | the lookup finds a user with that name, or none exists |
| AuthRoutes.FindUserUnique | backend/routes/auth.js:37-38 | with unique names the lookup finds the one user of that name |
| AuthRoutes.RoleOrDefault | backend/routes/auth.js:22 | a missing or empty role becomes `tenant`; any other role text is kept |
| AuthRoutes.Signup | backend/routes/auth.js:9-29 | a new name adds exactly one user with the next id, the hashed password and the defaulted role; a taken name answers 400 and changes nothing; a failing call answers 500; names stay unique |
| AuthRoutes.SignupTwice | backend/routes/auth.js:13-16 | a second signup with the same name answers 400, and names stay unique |
| AuthRoutes.Login | backend/routes/auth.js:32-57 | 500 exactly when a call throws; otherwise an unknown name or a wrong password is the 401 `BadCredentials` (`ข้อมูลไม่ถูกต้อง`); success means a stored user of that name whose password matches, and the token signs exactly their id, name and role |
| AuthRoutes.LoginDoesNotTell | backend/routes/auth.js:36-45 | an unknown name and a wrong password get the identical answer, the 401 `BadCredentials` |
| AuthRoutes.LoginSucceeds | backend/routes/auth.js:47-53 | a stored user logs in exactly with a matching password, and receives their own claims and role |
| Store.TenantById | backend/routes/logs.js:81 | finds the tenant with that id, or there is none |
| Store.SourceById | backend/routes/logs.js:82 | finds the source with that id, or there is none |
| Store.Database.constructor | backend/models/User.js:5-9 | a fresh database has unique user names and fresh alert and user ids |
| Sql.LikeAnything | backend/services/securityService.js:18-20 | `%` matches every text |
| Sql.LikePrefix | backend/services/securityService.js:18-20 | `w%` matches exactly the texts that start with `w` |
| Sql.LikeLeadingPercent | backend/services/securityService.js:18-20 | `%rest` matches exactly when some suffix matches `rest` |
| Sql.LikeContains | backend/services/securityService.js:18-20 | `%w%` matches exactly the texts that contain `w` |
| SecurityService.Qualifying | backend/services/securityService.js:18-22 | keeps exactly the rows whose event type is a failed login, that are inside the five-minute window and that have a source IP |
| SecurityService.Keys | backend/services/securityService.js:23 | each qualifying row is keyed by its IP and its tenant's name |
| SecurityService.GroupedSound | backend/services/securityService.js:23-24 | every group has at least 3 rows and counts exactly the rows of its key |
| SecurityService.GroupedComplete | backend/services/securityService.js:23-24 | every key with at least 3 rows has a group |
| SecurityService.GroupedDistinct | backend/services/securityService.js:23 | no two groups share a key |
| SecurityService.CandidatesCorrect | backend/services/securityService.js:10-25 | the query answers exactly one group per (IP, tenant) with at least 3 qualifying rows, with its exact count |
| SecurityService.Sweep | backend/services/securityService.js:28-58 | a sweep only appends alerts, and the id counter advances by the number appended |
| SecurityService.Processed | backend/services/securityService.js:59-62 | a query that throws stops the loop: only a prefix of the groups is handled |
| SecurityService.InsertAlerts | backend/services/securityService.js:28-58 | the loop appends the sweep's alerts for the groups it reaches; logs, tenants, sources and users are unchanged |
| SecurityService.CheckFailedLoginAttempts | backend/services/securityService.js:4-63 | one run appends the sweep's alerts for the groups handled before any failure, and changes nothing else |
| SecurityService.SweepRows | backend/services/securityService.js:40-56 | every appended alert is `failed_login_attempts` for a group, created now, with its IP, the next id, and no recent alert for that IP before it |
| SecurityService.AtMostOnePerIp | backend/services/securityService.js:28-57 | one sweep appends at most one alert per IP, even for an IP under several tenants |
| SecurityService.SweepCovers | backend/services/securityService.js:32-40 | after a sweep every group's IP has a recent alert |
| SecurityService.SweepNothingNew | backend/services/securityService.js:32-40 | when every group's IP already has a recent alert, a sweep adds nothing |
| SecurityService.SweepIdempotent | backend/services/securityService.js:32-40 | a second sweep at the same instant adds nothing |
| SecurityService.SweepTwice | backend/services/securityService.js:4-63 | two runs in a row leave the alerts as one run does, and the other tables unchanged |
| RetentionService.CleanupOldLogs | backend/services/retentionService.js:15-52 | the three deletions, stopped after the ones that completed, leave the tables as `Cleanup` says; nothing else changes |
| RetentionService.CleanupComplete | backend/services/retentionService.js:18-42 | a full run keeps exactly the logs at or after the 7-day cutoff, and exactly the alerts at or after the 30-day cutoff that are not orphans, both in order |
| RetentionService.NoOrphansLeft | backend/services/retentionService.js:34-42 | every remaining alert with an IP names the source or destination of a remaining log |
| RetentionService.AlertFollowsItsLogs | backend/services/retentionService.js:18-42 | a young alert whose IP appears only in old logs is deleted along with them |
| RetentionService.CleanupIdempotent | backend/services/retentionService.js:15-47 | a second full run at the same instant changes nothing |
| RetentionService.CleanupAfterFailure | backend/services/retentionService.js:49-51 | a full run after a run that stopped early ends where one full run ends |
| RetentionService.DataSizeInfo | backend/services/retentionService.js:55-86 | statistics are `null` exactly when a query fails; the totals are the table sizes; old logs are at most the total |
| RetentionService.LogCounts | backend/services/retentionService.js:57-62 | recent, old and undated logs partition the table, and a cleanup removes exactly the old ones |
| RetentionService.OldLogsCounted | backend/services/retentionService.js:72-78 | the reported old logs are the old-dated logs plus the undated ones |
| RetentionService.CleanupCounts | backend/services/retentionService.js:55-86 | after a full cleanup the recent count is unchanged, the total drops by the old logs, and only undated logs count as old |
| RetentionService.ManualCleanup | backend/services/retentionService.js:105-110 | a manual cleanup is exactly one `cleanupOldLogs` |
| RetentionRoutes.GetStats | backend/routes/retention.js:8-31 | non-admins get 403; an admin gets 7 and 30 days, with statistics that are `null` exactly when they fail |
| RetentionRoutes.PostCleanup | backend/routes/retention.js:34-59 | non-admins get 403 and nothing is deleted; an admin gets success with the before and after snapshots of exactly one cleanup |
| RetentionRoutes.CleanupReport | backend/routes/retention.js:45-54 | the cleanup report keeps the recent count, and the old count falls by the deleted logs |
| AlertsRoutes.ListAlerts | backend/routes/alerts.js:8-20 | a failure answers 500; otherwise at most 100 alerts |
| AlertsRoutes.LatestAlertsCorrect | backend/routes/alerts.js:10-13 | the list is the newest `min(100, n)` alerts, by `created_at` descending |
| AlertsRoutes.TenantSeesEveryAlert | backend/routes/alerts.js:8-15 | there is no role or tenant check: a tenant caller is answered, and with at most 100 alerts it receives every alert of the table |
| AlertsRoutes.PostAlert | backend/routes/alerts.js:23-37 | appends exactly one alert with the next id and the given fields; a failure answers 500 and changes nothing |
| AlertsRoutes.PostedAlertListed | backend/routes/alerts.js:10-32 | an alert posted after all others is in the next list |
| LogsRoutes.WithNames | backend/routes/logs.js:75-86 | one view per row, carrying the names of its tenant and source |
| LogsRoutes.NewestCorrect | backend/routes/logs.js:84-85 | the newest `min(n, rows)` rows, by timestamp descending |
| LogsRoutes.TenantNamed | backend/routes/logs.js:64-71 | finds the tenant whose name is the caller's username, or none has it |
| LogsRoutes.GetLogs | backend/routes/logs.js:60-124 | another role gets 403; a failing query gets 500; a tenant caller without a tenant gets 404; every other tenant or admin call succeeds, with at most 1000 rows |
| LogsRoutes.TenantSeesOwnRows | backend/routes/logs.js:73-88 | a tenant caller sees only rows of its own tenant, newest first, min(1000, that tenant's rows) of them, and no row of that tenant it misses is newer than one it sees |
| LogsRoutes.AdminSeesNewest | backend/routes/logs.js:96-115 | an admin sees the newest 1000 rows of every tenant |
| LogsRoutes.AllLogs | backend/routes/logs.js:8-57 | non-admins get 403; an admin gets 500 exactly when the query fails and succeeds otherwise; the total counts every log; the page holds min(`limit`, total − `offset`) rows (default limit 100, offset 0), row i being the newest-first row at `offset` + i |
| LogsRoutes.TypedLogs | backend/routes/logs.js:127-220 | no role check; 500 exactly when the query fails; the total counts that type; the page holds min(`limit`, total − `offset`) rows, row i being the newest-first row of that type at `offset` + i |
| LogsRoutes.TypedRowsOfType | backend/routes/logs.js:150-153 | the sorted rows are exactly the rows of that type, as many as the count query reports |
| LogsRoutes.TypedPageNewest | backend/routes/logs.js:150-153 | a typed page is newest first, and the first page leaves out no row of that type newer than one on it |
| LogsRoutes.PagesTile | backend/routes/logs.js:35-43 | two consecutive pages of `limit` rows are the page of `2 * limit` rows at the same offset, and a page followed by the rest is the suffix from its offset |
| LogsRoutes.ListTenants | backend/routes/logs.js:223-251 | non-admins get 403; an admin gets 500 exactly when the query fails, and otherwise every tenant, once |
| LogsRoutes.TenantsByName | backend/routes/logs.js:231-238 | the tenants are ordered by name |
| LogsRoutes.Counted | backend/routes/logs.js:321-332 | each source is paired with its number of log rows |
| LogsRoutes.ListSources | backend/routes/logs.js:319-345 | every source is listed with its count, including those with none |
| LogsRoutes.SourcesListed | backend/routes/logs.js:321-332 | the list is ordered by name and holds each source with its count |
| LogsRoutes.GroupsFor | backend/routes/logs.js:297-304 | one group per key, in key order |
| LogsRoutes.GroupBySource | backend/routes/logs.js:297-304 | the `forEach` that fills `logsBySource` throws exactly when some row's label is a property name `Object.prototype` supplies, and otherwise computes the grouping by source label, keys in first-appearance order |
| LogsRoutes.EveryRowInOneGroup | backend/routes/logs.js:297-304 | group keys are distinct; every row is in its label's group and in no other |
| LogsRoutes.GroupsKeepOrder | backend/routes/logs.js:290-304 | each group keeps the rows' order, so newest-first rows stay newest first |
| LogsRoutes.GetTenantLogs | backend/routes/logs.js:254-316 | non-admins get 403; an unknown id gets 404; a failing query or a row labelled with an inherited property name gets 500; otherwise the tenant and its newest 1000 rows grouped by source |
| Tally.CountKeys | frontend/src/components/Dashboard/Charts.js:38-43 | the counting loop computes the tally of the keys |
| Tally.BumpFacts | frontend/src/components/Dashboard/Charts.js:41 | incrementing a key's count adds one to it, and only to it |
| Tally.TallyInvariant | frontend/src/components/Dashboard/Charts.js:38-43 | the tally's keys are distinct, each count is the number of occurrences of its key, and the counts add up to the keys counted |
| Tally.TallyCorrect | frontend/src/components/Dashboard/Charts.js:38-43 | the tally lists exactly the keys that occur, each once with its number of occurrences |
| Tally.TopOrdered | frontend/src/components/Dashboard/Charts.js:45-47 | the kept entries have distinct keys and non-increasing counts |
| Tally.TopMembers | frontend/src/components/Dashboard/Charts.js:45-47 | the first `min(n, entries)` entries of the tally are kept |
| Tally.TopLeftOut | frontend/src/components/Dashboard/Charts.js:45-47 | no entry left out counts more than a kept one |
| Tally.TopCorrect | frontend/src/components/Dashboard/Charts.js:45-47 | the top `n` is a sorted selection of the tally's largest entries |
| Charts.TopChart | frontend/src/components/Dashboard/Charts.js:36-61 | the labels and data are the top `n` keys and their counts |
| Charts.TopChartShown | frontend/src/components/Dashboard/Charts.js:45-54 | each shown label is a key that occurs, shown with its number of occurrences |
| Charts.TopChartOrdered | frontend/src/components/Dashboard/Charts.js:45-54 | the labels are distinct and the counts non-increasing |
| Charts.TopChartLeftOut | frontend/src/components/Dashboard/Charts.js:45-47 | a key that is not shown occurs no more often than any shown key |
| Charts.TopKeepsAll | frontend/src/components/Dashboard/Charts.js:47 | with fewer than `n` entries, every entry is kept |
| Charts.TopIpChart | frontend/src/components/Dashboard/Charts.js:36-61 | the top 10 truthy source IPs with their counts |
| Charts.TopUserChart | frontend/src/components/Dashboard/Charts.js:70-95 | the top 10 truthy users with their counts |
| Charts.TopEventTypeChart | frontend/src/components/Dashboard/Charts.js:104-140 | the top 8 event types with their counts |
| Charts.IpCounted | frontend/src/components/Dashboard/Charts.js:39-43 | a log is counted under its IP exactly when that IP is truthy |
| Charts.EventTypeSkips | frontend/src/components/Dashboard/Charts.js:106-115 | a log is skipped exactly when its source is network or firewall and its event type is falsy; other falsy types count as `Unknown` |
| Charts.HourOf | frontend/src/components/Dashboard/Charts.js:156 | an hour is below 24 |
| Charts.HourLabelReadsBack | frontend/src/components/Dashboard/Charts.js:164 | each label is two digits spelling the hour, then `:00` |
| Charts.Tick | frontend/src/components/Dashboard/Charts.js:153-158 | counting one more log keeps 24 buckets |
| Charts.TickKeepsBuckets | frontend/src/components/Dashboard/Charts.js:153-158 | each bucket keeps counting exactly the logs of its hour |
| Charts.Timeline | frontend/src/components/Dashboard/Charts.js:149-176 | 24 buckets labelled `00:00` to `23:00`; each counts the logs of that hour; their sum is the number of logs with a truthy, valid timestamp |
| ClientRows.KeysOf | frontend/src/components/Dashboard/Charts.js:39-43 | one key per row, in row order |
| ClientRows.Narrow | frontend/src/app/page.js:178-207 | a filter step keeps a subsequence |
| ClientRows.NarrowMember | frontend/src/app/page.js:178-207 | a step that is set keeps exactly the rows satisfying it; a step that is not set keeps every row |
| ClientRows.Search | frontend/src/app/data/page.js:19-24 | keeps exactly the rows with a truthy field whose lower-cased text contains the lower-cased term, in order |
| ClientRows.EmptySearchKeepsAll | frontend/src/app/data/page.js:20 | an empty term keeps every row |
| ClientRows.FalsyNeverMatches | frontend/src/app/data/page.js:22 | a field equal to 0 never matches |
| ClientRows.SearchIgnoresCase | frontend/src/app/alerts/page.js:22 | the search ignores case |
| ClientRows.TotalPages | frontend/src/app/data/page.js:27 | `ceil(n / pageSize)`: zero only for no rows, and the smallest count of pages that holds them |
| ClientRows.PagesCoverRows | frontend/src/app/data/page.js:27-30 | pages 1 to the last, joined, are exactly the rows, and none of them is empty |
| ClientRows.PageStartsInside | frontend/src/app/data/page.js:28-30 | page `p` is the slice from `(p - 1) * pageSize` to `p * pageSize`, cut at the end |
| ClientRows.CaptionMatchesPage | frontend/src/app/data/page.js:181 | the caption's range has as many rows as the page, and starts at its first row |
| ClientRows.PastLastPageEmpty | frontend/src/app/alerts/page.js:25-28 | a page past the last is empty |
| ClientRows.InRangeShowsRows | frontend/src/app/data/page.js:27-30 | a page in range shows at least one row when there are rows |
| ClientRows.ClickKeepsRange | frontend/src/app/data/page.js:289-318 | the pagination buttons never take an in-range page out of range |
| ClientRows.ClickPastLast | frontend/src/app/alerts/page.js:255-267 | from a page past the last, Next goes further on and Last comes back into range |
| ClientRows.SecondPageEmpty | frontend/src/app/data/page.js:162-163 | with one page of rows, page 2 is empty |
| ClientRows.FirstPageInRange | frontend/src/app/data/page.js:125 | page 1 is always in range |
| DateBounds.WithYear | frontend/src/app/page.js:154 | `setFullYear` keeps the time, and the month and day except for a 29 February |
| DateBounds.FromBuddhistEra | frontend/src/app/page.js:153-155 | a year above 2500 goes back 543 years; other dates are unchanged |
| DateBounds.CorrectionOnce | frontend/src/app/page.js:153-155 | correcting an already corrected date changes nothing |
| DateBounds.LeapDayRollsOver | frontend/src/app/page.js:153-155 | 29 February 2568 becomes 1 March 2025 |
| DateBounds.EndOfDay | frontend/src/app/page.js:170 | the end bound stays on its day |
| DateBounds.BoundsInclusive | frontend/src/app/page.js:150-176 | both bounds are inclusive, and the end bound covers its whole day |
| DateBounds.InvalidBoundKeepsNothing | frontend/src/app/page.js:150-176 | a date text that does not parse keeps no row |
| DateBounds.ByDateRange | frontend/src/app/data/page.js:89-110 | the date steps keep a subsequence |
| DateBounds.ByDateRangeMember | frontend/src/app/data/page.js:89-110 | the date steps keep exactly the rows inside the range that is set |
| Dashboard.CalculateStats | frontend/src/app/page.js:105-142 | the loop computes the statistics of the list |
| Dashboard.BuildDashboardData | frontend/src/app/page.js:88-103 | the result is the statistics of the list on both branches, since the explicit zeros for an empty list are its statistics |
| Dashboard.EmptyStats | frontend/src/app/page.js:89-97 | an empty list has zero totals and empty distributions |
| Dashboard.DistinctCountsBounded | frontend/src/app/page.js:107-115 | the distinct tenants and sources number no more than the logs |
| Dashboard.TenantDistributionCounts | frontend/src/app/page.js:122-127 | each tenant entry counts that tenant's logs, and the counts sum to at most the number of logs |
| Dashboard.SourceDistributionKeys | frontend/src/app/page.js:128-133 | the source distribution only has `network` and `firewall`, and sums to at most the number of logs |
| Dashboard.ByDatesMember | frontend/src/app/page.js:150-176 | the date steps keep exactly the rows in the range |
| Dashboard.ByFieldsMember | frontend/src/app/page.js:178-207 | the field steps keep exactly the rows passing every field filter that is set |
| Dashboard.SelectedMember | frontend/src/app/page.js:144-212 | the filter chain keeps exactly the loaded rows passing every filter that is set |
| Dashboard.SelectedKeepsOrder | frontend/src/app/page.js:147-209 | the filter chain keeps its rows in their loaded order |
| Dashboard.SelectedIsFilter | frontend/src/app/page.js:147-209 | the chain is one filter by every filter set: each loaded row that passes is kept as often as it was loaded, in order |
| Dashboard.NoFiltersKeepAll | frontend/src/app/page.js:147-209 | with no filter set, every row is kept |
| Dashboard.DashboardPage.constructor | frontend/src/app/page.js:72-76 | after loading, everything is shown, with the 10 most recent rows and their statistics |
| Dashboard.DashboardPage.HandleFilterChange | frontend/src/app/page.js:144-212 | restarts from every loaded row, keeps the selection, and recomputes the 10 most recent rows and the statistics from it |
| DataPage.ChosenMember | frontend/src/app/data/page.js:86-122 | the filters keep exactly the loaded rows in the date range, of the tenant, and whose source name or type is the source |
| DataPage.ChosenKeepsOrder | frontend/src/app/data/page.js:86-122 | the filters keep their rows in loaded order |
| DataPage.ChosenIsFilter | frontend/src/app/data/page.js:86-122 | the chain is one filter by every filter set: each loaded row that passes is kept as often as it was loaded, in order |
| DataPage.SourceMatchesType | frontend/src/app/data/page.js:118-122 | a firewall row, which has no source name, is kept by the source filter `firewall` |
| DataPage.DataPage.constructor | frontend/src/app/data/page.js:12-16 | page 1 of 25 rows, no search, everything shown |
| DataPage.DataPage.CurrentLogs | frontend/src/app/data/page.js:30 | the table shows at most one page of rows |
| DataPage.DataPage.HandleFilterChange | frontend/src/app/data/page.js:86-126 | restarts from every loaded row, keeps the chosen ones, goes to page 1 and clears the search |
| DataPage.DataPage.SetPageSize | frontend/src/app/data/page.js:166-171 | a new page size goes back to page 1 |
| DataPage.DataPage.SetSearchTerm | frontend/src/app/data/page.js:159-163 | a new term leaves the page where it was |
| DataPage.DataPage.Click | frontend/src/app/data/page.js:283-320 | the page changes as the button says; disabled buttons do nothing; an in-range page stays in range |
| AlertsPage.ChangesOnlyWhenAccepted | frontend/src/app/alerts/page.js:92-95 | the list changes only on an ok, successful answer; such an answer without data empties it |
| AlertsPage.ReloadForgetsPrevious | frontend/src/app/alerts/page.js:92-95 | an accepted answer decides the list alone; a refusal keeps the list shown |
| AlertsPage.RefusalKeepsList | frontend/src/app/alerts/page.js:93-97 | a response that is not ok, a falsy `success` or a thrown fetch keeps the list |
| AlertsPage.AlertsPage.constructor | frontend/src/app/alerts/page.js:11-16 | no alerts, page 1 of 10, no search |
| AlertsPage.AlertsPage.CurrentAlerts | frontend/src/app/alerts/page.js:28 | the table shows at most one page of alerts |
| AlertsPage.AlertsPage.LoadAlerts | frontend/src/app/alerts/page.js:80-101 | only the list changes, and only as an accepted answer says; the page stays where it was |
| AlertsPage.AlertsPage.SetSearchTerm | frontend/src/app/alerts/page.js:156-159 | a new term goes back to page 1 |
| AlertsPage.AlertsPage.SetPageSize | frontend/src/app/alerts/page.js:164-167 | a new page size goes back to page 1 |
| AlertsPage.AlertsPage.Click | frontend/src/app/alerts/page.js:232-268 | the page changes as the button says; disabled buttons do nothing; an in-range page stays in range |

## Left out

- Time conversion is a parameter rather than part of the model:
  - `parseTimeToISO`, which uses `Date.parse`, the current year and `toISOString`, is the parameter `toIso`;
  - the frontend's `new Date(...)` is `toDate`, and time zones and daylight saving are not modelled;
  - `getPastDateStr(days)` is `now - days * 86400` in seconds. Its local-calendar `setDate`, which makes a day of 23 or 25 hours across a daylight-saving change, is left out.
- JWT signing and verification, and bcrypt hashing and comparison, are oracle parameters. Token expiry is whatever `verify` answers.
- Timers are not modelled: `startSecurityMonitoring`, `startRetentionService` and the alerts page's ten-second refresh. Each model call is one invocation with its own `now`.
- `OPTIMIZE TABLE` and the `information_schema` table sizes are not modelled. `SizeInfo` carries only the counts.
- `GROUP_CONCAT(DISTINCT user)` is not modelled. A candidate's users are a list with no duplicates, not a comma-joined string.
- The alert `details` JSON is not serialised. It is the structured record it would encode.
- AuthRoutes.FindUser, AuthRoutes.Signup, AuthRoutes.Login and LogsRoutes.TenantNamed: `=` on text compares exactly here, and so does `LIKE` in the security sweep. The default MySQL collation ignores case and accents, so in the source signing up as `Alice` when `alice` exists answers 400, logging in as `ALICE` gets `alice`'s token, and a tenant user `ACME` sees the rows of tenant `acme`.
- `ORDER BY` ties keep table order here; SQL leaves the order of equal keys unspecified.
- SecurityService.Keys: the sweep's `GROUP BY l.src_ip, t.name` has no `ORDER BY`, so MySQL does not fix the order of the groups; the model takes first-appearance order. For an IP that failed under several tenants, that order decides which tenant's group receives the one alert and whose name its message carries. SecurityService.AtMostOnePerIp, SecurityService.SweepRows, SecurityService.InsertAlerts and SecurityService.CheckFailedLoginAttempts rest on this choice.
- RetentionService.CleanupOldLogs: the 7-day and 30-day cutoffs are `getPastDateStr` text in UTC, compared with `created_at` columns written in the database session's time zone; the model reads both on one clock. A session zone other than UTC shifts both cutoffs by the zone offset, which RetentionService.CleanupComplete, RetentionService.DataSizeInfo and RetentionService.OldLogsCounted do not capture.
- LogsRoutes.GetTenantLogs: the id is a natural number here. The route passes the `:id` text to `WHERE id = ?`, where MySQL converts it to a number, so `5abc` selects tenant 5.
- SecurityService.SweepIdempotent: the alert's `created_at` is `NOW()` in the database session's time zone, while the one-hour cutoff is UTC text from `toISOString`; the model reads both from one `now`. With a session zone west of UTC a fresh alert already lies before the cutoff and every run alerts again, so SecurityService.SweepIdempotent, SecurityService.SweepNothingNew and SecurityService.SweepTwice hold only when the session zone is UTC.
- `ORDER BY name` compares code points here; collation order is left out.
- Column projections are not modelled. Views carry the whole log row together with the joined names.
- `parseInt` of `limit` and `offset` is not modelled. They arrive as natural numbers or absent, so NaN and negative values are left out.
- LogsRoutes.LogsBySource and LogsRoutes.GetTenantLogs: the groups are in first-appearance order here. The JSON body of `GET /tenant/:id` lists an object's integer-like keys first, in ascending order, so a source named `2` is listed before `firewall` whatever the rows' order.
- `Object.entries` in the chart and dashboard counters yields keys in insertion order here. JavaScript puts integer-like keys first.
- Tally.TallyCorrect: a counted key is any text here. In the source's `counts[k] = (counts[k] || 0) + 1` a key that `Object.prototype` supplies, such as `constructor` or `toString`, starts from a function and becomes a text count, and `__proto__` is never counted. This affects Tally.CountKeys, the Charts counters (frontend/src/components/Dashboard/Charts.js lines 41, 75 and 114) and Dashboard.CalculateStats (frontend/src/app/page.js:125). The backend's `logsBySource` throw on such a key is modelled.
- Numbers are integers here (`Value.Num`): fractions, NaN and Infinity are left out.
- ParserExamples.PortsRoundTrip: `spt` and `dpt` read back exactly; `parseInt` of a digit run above 2^53 loses precision in JavaScript, which the model does not capture.
- `toLowerCase` is ASCII-only here.
- `==` between a number and numeric text compares only the decimal form `ToStr` produces.
- `Set` membership uses value equality here, not JavaScript identity.
- Some failures the source would throw or log are treated differently:
  - `.includes` on a non-string field throws in the source and is treated as no match here;
  - the timeline's NaN-hour bucket for an unparseable timestamp is not counted.
- `POST /alerts` with a missing `alert_type` or `message` is not checked. The model inserts what it is given, as the route does.
- The role column's ENUM restriction is not enforced. `RoleOrDefault` keeps any non-empty role text.
- The `/stats` route's 500 answer is not modelled. The service never throws, so that answer is never reached.
- DataPage.DataPage.SetPageSize and AlertsPage.AlertsPage.SetPageSize require a positive size rather than the selector's options: the data page offers 10, 25, 50 and 100 (frontend/src/app/data/page.js lines 174-177), the alerts page 5, 10, 20 and 50 (frontend/src/app/alerts/page.js lines 170-173).
- Loading and refreshing flags, React rendering, `localStorage`, `fetch`, router navigation and the login and signup pages are not modelled.
- ingest/server.js and ingest/server_old.js are not part of this model. The first never answers; the second cannot start.
- frontend/src/app/page_old.js is not part of this model. It is an unreferenced older dashboard.
- backend/db.js, ingest/db.js, ingest/models.js and backend/index.js are not part of this model. backend/models/User.js calls `sequelize.define` on what backend/db.js exports, a mysql2 pool with no `define`; the model takes the `users` table the auth routes intend.
