# Usage-analytics backend, modelled in Dafny

This project models the server core of a small usage-analytics service. The
service has two tables:

- `user_interactions`: one row per button press or screen use, carrying the
  user, department, system section, system function, optional session, IP
  address and user agent, and a timestamp.
- `users`: the company's user directory.

Four pieces are modelled:

- **The SQLite layer** (`EventStore`). It inserts an interaction with an
  AUTOINCREMENT id and foreign keys switched on, and upserts a user with
  `INSERT OR REPLACE`.
- **The read queries** (`Queries`). These are the per-day groupings by user,
  department, section, function and hour, the productivity ranking, the
  newest-first recent list and the date-range listing.
- **The dashboard route** (`DashboardRoute`). `GET` builds the summary and
  the top-10 lists. `POST` filters a date range and buckets the records by
  day with a reducer.
- **The sync-users route and the track route** (`SyncUsersRoute`,
  `TrackRoute`). Both check the API token and the required fields, then
  write through the store.

Each prepared statement is a function over the table contents. A `GROUP BY`
is a list of rows, one per distinct key in order of first appearance (see
`Collections.IsGrouping`), and each row's count is the size of its group.
`ORDER BY ... DESC` is a stable sort by rank. The store is a class whose
methods update the two tables in place. The dashboard's day-bucketing
reduce is a loop method, proved against a recursive fold.

A timestamp is the stored `record_date` text together with its calendar day
and hour. SQLite's `DATE(...)` and `strftime('%H', ...)` are taken to read
exactly those two. The clock is a parameter (`now`). So are the `API_TOKEN`
environment variable and the request headers.

Three behaviours of the code worth noting; the model follows the code:

- `PRAGMA foreign_keys = ON` is executed (src/lib/database.ts:8). So an
  interaction whose `user_uid` is not a known user is refused, and the track
  route answers 500.
- SQLite's `LIKE` folds ASCII case. So the quotation and report filters
  ignore case.
- `record_date` is declared `DATETIME` (src/lib/database.ts:31), so it has
  NUMERIC affinity, and so does each bound of the range query. A bound that
  is a numeric literal such as "2024" becomes a number, and a number sorts
  before every TEXT timestamp. Other bounds are compared as text.

## Model

| member | source | states |
|---|---|---|
| EventStore.Store.InsertInteraction | src/lib/database.ts:64-67 | Insert fails exactly when the user is unknown (foreign key) or the AUTOINCREMENT counter is at 2^63-1; on success the new id is the previous largest id plus one, above every stored id, and the row is appended with that id and the given fields; users are unchanged; the store's invariant (ids ascending, every row's user known) is kept |
| EventStore.Store.UpsertUser | src/lib/database.ts:70-73 | `INSERT OR REPLACE` maps the uid to a fresh row with both timestamps set to now, leaves every other user and all interactions unchanged, and keeps the invariant |
| Queries.OnDay | src/lib/database.ts:83-93 | `WHERE DATE(record_date) = ?` keeps exactly the records of that calendar day |
| Queries.GetUserStats | src/lib/database.ts:83-93 | One row per distinct (uid, department) of the day; each row's total is the size of its group, and its distinct functions number between 1 and that total |
| Queries.UserStatsTotal | src/lib/database.ts:83-93 | The user rows' totals add up to the number of records of the day |
| Queries.GetDepartmentStats | src/lib/database.ts:96-105 | One row per department of the day; the total is the group's size, and the active users are its distinct uids, between 1 and that total |
| Queries.DepartmentStatsTotal | src/lib/database.ts:96-105 | The department totals add up to the day's record count |
| Queries.GetSystemSectionStats | src/lib/database.ts:108-117 | One row per section of the day; the total is the group's size, and the unique users are its distinct uids, between 1 and that total |
| Queries.SectionStatsTotal | src/lib/database.ts:108-117 | The section totals add up to the day's record count |
| Queries.GetFunctionStats | src/lib/database.ts:120-131 | One row per (function, section) of the day, ordered by usage count descending, each count the group's size, and the unique users between 1 and that count |
| Queries.FunctionStatsTotal | src/lib/database.ts:120-131 | The usage counts add up to the day's record count |
| Queries.NotQuotationFunction | src/lib/database.ts:151 | A function name with no case-folded "qu" and no "pr" pair matches neither `%quotation%` nor `%proposal%` |
| Queries.NotReportFunction | src/lib/database.ts:152 | A function name with no case-folded "re" pair does not match `%report%` |
| Queries.GetUserProductivity | src/lib/database.ts:146-160 | One row per (uid, department) of the day, ordered by total descending, with the user's name from the directory or null (LEFT JOIN), and quotation and report counts that are the sizes of the case-insensitive `LIKE` subsets of the group, each bounded by the total |
| Queries.UserProductivityTotal | src/lib/database.ts:146-160 | The productivity totals add up to the day's record count |
| Queries.AscendingHours | src/lib/database.ts:170 | Hour rows with distinct hours sorted by ascending hour are strictly increasing |
| Queries.GetHourlyActivity | src/lib/database.ts:163-171 | One row per hour of the day, hours strictly increasing, each count the size of its group and at least 1 |
| Queries.HourlyActivityTotal | src/lib/database.ts:163-171 | The hourly counts add up to the day's record count |
| Queries.InsertNewest | src/lib/database.ts:141 | Inserting into a newest-first list keeps it newest-first and adds exactly that record |
| Queries.SortNewestFirst | src/lib/database.ts:79 | `ORDER BY record_date DESC` yields a newest-first permutation of its input |
| Queries.NewestPrefix | src/lib/database.ts:141-142 | A prefix of a newest-first list is newest-first, and every record it leaves out is no newer than the records it keeps |
| Queries.NewestRecords | src/lib/database.ts:137-143 | `LIMIT n` returns min(n, size) records, newest first, a sub-multiset of the log, and no dropped record is newer than a kept one |
| Queries.GetRecentInteractions | src/lib/database.ts:137-143 | The recent list is those newest records, each with its user's name or null |
| Queries.GetInteractionsByDateRange | src/lib/database.ts:76-80 | Exactly the records within the bounds under NUMERIC affinity (a numeric start admits every timestamp, a numeric end none, any other bound compared as text), as a permutation of the filtered log, newest first |
| Queries.NumericStartAdmitsAll | src/lib/database.ts:78 | With a numeric-literal start bound, the listing holds every record up to the end bound, earlier years included |
| Queries.NumericEndAdmitsNone | src/lib/database.ts:78 | With a numeric-literal end bound, the listing is empty |
| Queries.BareDayEndExcludesThatDay | src/lib/database.ts:78 | A record whose timestamp text strictly extends the end bound (a bare-day end and a timestamp of that day) is not listed |
| Text.ExtensionSortsAfter | src/lib/database.ts:78 | A text that strictly extends another sorts after it |
| Text.YearIsNumericLiteral | src/lib/database.ts:31 | "2024" takes NUMERIC affinity as a number |
| Text.DayIsNoNumericLiteral | src/lib/database.ts:31 | "2024-01-15" is not a numeric literal, so it stays TEXT |
| Queries.QuotationFunctionIsLike | src/lib/database.ts:151 | The quotation classifier holds exactly when the name matches `%quotation%` or `%proposal%` up to ASCII case |
| Queries.ReportFunctionIsLike | src/lib/database.ts:152 | The report classifier holds exactly when the name matches `%report%` up to ASCII case |
| Text.LexLeTotal | src/lib/database.ts:78-79 | Text comparison of timestamps is total |
| Text.LexLeTransitive | src/lib/database.ts:78-79 | Text comparison of timestamps is transitive |
| Text.LexLeAntisymmetric | src/lib/database.ts:78-79 | Text comparison of timestamps is antisymmetric |
| Text.ContainsAt | src/lib/database.ts:151-152 | The substring test holds exactly when the pattern occurs at some position |
| Text.LikeAtIsOccursAtLower | src/lib/database.ts:151-152 | A case-folded match at a position is an occurrence in the lower-cased texts |
| Text.ContainsIgnoringCaseIsLike | src/lib/database.ts:151-152 | The executable case-insensitive substring test agrees with `LIKE '%p%'` |
| Text.NoLeadingPair | src/lib/database.ts:151-152 | A text without the pattern's first two letters (case-folded) anywhere side by side does not match `LIKE '%p%'` |
| Text.BeforeFirstT | src/app/api/dashboard/route.ts:105 | `split('T')[0]` is the longest prefix without a 'T': the whole text if it has none, otherwise the part that ends just before the first 'T' |
| Api.ConfiguredToken | src/app/api/sync-users/route.ts:5 | The token is the environment's value when it is truthy and the default secret otherwise, never empty |
| Api.OrNull | src/app/api/track/route.ts:33 | `x \|\| null` is the value exactly when it is a non-empty string |
| DashboardRoute.DashboardDate | src/app/api/dashboard/route.ts:8 | The date is the `date` parameter when non-empty, otherwise the clock's ISO text up to its first 'T' (all of it when it has none) |
| DashboardRoute.DashboardGet | src/app/api/dashboard/route.ts:5-67 | The `GET` answer is the dashboard of the requested date, or of the clock's `split('T')[0]` date when none is given |
| DashboardRoute.Take | src/app/api/dashboard/route.ts:44-47 | `slice(0, 10)` keeps the first min(10, size) rows |
| DashboardRoute.SummaryOf | src/app/api/dashboard/route.ts:38-41 | The summary's interaction total is the day's record count; active users, departments and sections are the row counts and bounded by it |
| DashboardRoute.BuildDashboard | src/app/api/dashboard/route.ts:11-67 | The payload holds each query's result for the date, the summary, and the top 10 productivity and function rows |
| DashboardRoute.EmptyDayDashboard | src/app/api/dashboard/route.ts:38-47 | A day without records gives an all-zero summary and empty per-day lists; `recentInteractions` is not restricted to the date and is not covered |
| DashboardRoute.TimeSeries | src/app/api/dashboard/route.ts:104-129 | One bucket per distinct key in order of first appearance, each bucket summarising exactly its group |
| DashboardRoute.TimeSeriesBuckets | src/app/api/dashboard/route.ts:123-129 | Each bucket counts at least one record; its unique users, departments and sections are the distinct values in its group, each at most its total |
| DashboardRoute.TimeSeriesTotal | src/app/api/dashboard/route.ts:123-135 | The bucket totals add up to the number of records in the range |
| DashboardRoute.AccOfIsGroup | src/app/api/dashboard/route.ts:104-120 | The reducer's accumulator for a key holds its group's size and the sets of its group's users, departments and sections |
| DashboardRoute.ReduceMeaning | src/app/api/dashboard/route.ts:104-120 | After folding a prefix, the key order is the distinct keys, the map's keys are the keys seen, and each entry is that key's accumulator |
| DashboardRoute.BucketByDay | src/app/api/dashboard/route.ts:104-129 | The reduce loop followed by `Object.values(...).map(...)` yields exactly the time series |
| DashboardRoute.SplitDateKey | src/app/api/dashboard/route.ts:105 | The key is the stored text up to its first 'T', and the whole text when it has none |
| DashboardRoute.RangeReportBy | src/app/api/dashboard/route.ts:88-137 | For any bucket key: 400 exactly when a bound is missing; otherwise the raw records are the range query's result, the total is their number, the time series is one bucket per distinct key, and the bucket totals add up to that total |
| DashboardRoute.RangeReportOf | src/app/api/dashboard/route.ts:88-137 | The handler as written: the same, with the time series keyed by `split('T')[0]` (see Findings) |
| DashboardRoute.RangeReportByDay | src/app/api/dashboard/route.ts:88-137 | The handler as intended: the same, with one bucket per calendar day of the records, each dated with its day |
| DashboardRoute.SplitKeyIsStoredText | src/app/api/dashboard/route.ts:105 | On timestamps without a 'T', the as-written key makes one bucket per distinct stored timestamp text |
| DashboardRoute.SplitKeySplitsOneDay | src/app/api/dashboard/route.ts:105 | Two records of the same day at different times fall into two buckets under the as-written key |
| DashboardRoute.OneBucketPerDay | src/app/api/dashboard/route.ts:105 | Keyed by calendar day, there is exactly one bucket per distinct day, dated with it |
| DashboardRoute.CalendarDayKeepsOneDay | src/app/api/dashboard/route.ts:105 | Two records of the same day at different times share one bucket under the calendar-day key |
| SyncUsersRoute.UserOf | src/lib/database.ts:70-73 | The upserted row carries the entry's uid, name and department, with both timestamps set to now |
| SyncUsersRoute.ApplyEntriesKeys | src/app/api/sync-users/route.ts:32-49 | After the loop the directory's uids are the old ones plus the uids of the valid entries |
| SyncUsersRoute.UntouchedUidKept | src/app/api/sync-users/route.ts:32-49 | A uid named by no valid entry keeps its old row, or stays absent |
| SyncUsersRoute.LastValidEntryWins | src/app/api/sync-users/route.ts:42 | A uid maps to the row built from the last valid entry that names it |
| SyncUsersRoute.FirstNull | src/app/api/sync-users/route.ts:32-35 | The index of the first `null` element, where the field check throws; all elements before it are objects |
| SyncUsersRoute.NullAfterUpsertLeavesPartialSync | src/app/api/sync-users/route.ts:35-46 | A valid new user followed by a `null` has already changed the table when the sync fails |
| SyncUsersRoute.NullEntryIsSkipped | src/app/api/sync-users/route.ts:35-38 | Under the corrected check a `null` changes nothing and is reported as rejected |
| SyncUsersRoute.SyncEntries | src/app/api/sync-users/route.ts:32-49 | The loop upserts every valid entry in order; the successes are the valid entries, the errors are the others, and together they are all the entries |
| SyncUsersRoute.SyncUsers | src/app/api/sync-users/route.ts:7-67 | 401 exactly on a token mismatch; 400 exactly when the token matches and there is no users array; 500 exactly when the array holds a `null`, with the entries before it already upserted; otherwise every valid entry is upserted in order, the counts are the numbers of valid and rejected entries and add up to the array's length, errors are absent exactly when nothing was rejected, and interactions are untouched |
| SyncUsersRoute.SyncUsersSkippingNull | src/app/api/sync-users/route.ts:7-60 | The handler as intended: never 500 past the checks; a `null` is rejected like an incomplete entry, and the counts cover every entry |
| TrackRoute.ClientIp | src/app/api/track/route.ts:34 | The IP is `x-forwarded-for` if non-empty, else `x-real-ip` if non-empty, else null |
| TrackRoute.Track | src/app/api/track/route.ts:7-53 | 401 exactly on a token mismatch; 400 exactly when a required field is empty; 500 exactly when the store refuses the insert; otherwise the record with the request's fields, session, IP, user agent and the new id is appended, that id is returned, and the directory is untouched |
| TrackRoute.TrackedRecordCountsOnItsDay | src/app/api/track/route.ts:38-46 | Tracking a record raises its day's record count by one and leaves other days' counts alone |
| TrackRoute.TrackedRaisesDayTotal | src/app/api/track/route.ts:38-46 | Tracking a record raises the dashboard summary total of its day by one |
| TestVectors.ProposalIsQuotation | test-api.js:5-18 | The sample function `generate_proposal` counts as a quotation |
| TestVectors.ProposalIsNoReport | test-api.js:5-18 | `generate_proposal` does not count as a report |
| TestVectors.WriteReportIsReport | test-api.js:5-18 | `write_report` counts as a report |
| TestVectors.WriteReportIsNoQuotation | test-api.js:5-18 | `write_report` does not count as a quotation |
| TestVectors.SearchCustomerIsNoQuotation | test-api.js:5-18 | `search_customer` does not count as a quotation |
| TestVectors.SearchCustomerIsNoReport | test-api.js:5-18 | `search_customer` does not count as a report |
| TestVectors.VerifyPaymentIsNoQuotation | test-api.js:5-18 | `verify_payment` does not count as a quotation |
| TestVectors.VerifyPaymentIsNoReport | test-api.js:5-18 | `verify_payment` does not count as a report |
| TestVectors.SampleUsersAllValid | test-api.js:5-18 | Every sample user has uid, name and department, so a sync of them rejects none |
| Collections.GroupCountsSum | src/lib/database.ts:83-171 | The per-group counts of any grouping of a sequence add up to its length |
| Collections.DistinctKeysCount | src/app/api/dashboard/route.ts:123-129 | There is one distinct key per element of the key image |

## Left out

- HTTP and JSON handling: body parsing, response status codes beyond the variants named in the response datatypes, and the 500 answers of the outer `catch` blocks for malformed bodies.
- SyncUsersRoute.SyncUsers: the error list holds the rejected entries, not the formatted message strings, and the summary message text is not built.
- SyncUsersRoute.SyncUsers: the per-entry `catch` (src/app/api/sync-users/route.ts:45-48) never counts an error in the model. An entry is `null` or an object with string fields, and an upsert of a valid entry always succeeds. For a `null` entry the `catch` itself throws on `user.uid`, so the model answers 500 for it (see Findings).
- SyncUsersRoute.SyncUsers: one clock reading `now` stamps the whole batch, while each `upsertUser.run` reads its own `CURRENT_TIMESTAMP` (src/lib/database.ts:72).
- Non-string JSON values (numbers, arrays, objects as field values) and their truthiness: request fields are optional strings.
- TrackRoute.Track: `lastInsertRowid` (src/app/api/track/route.ts:51) becomes a JavaScript number, which rounds ids above 2^53; the model returns the exact id.
- TrackRoute.Track: the response's `timestamp` (new Date().toISOString()) is not modelled; the stored record's timestamp is the `now` parameter. The clock and the server's current date (the dashboard's default date) are parameters.
- SQLite's `DATE()` and `strftime('%H')` parsing: a timestamp carries its day and hour alongside its text. `Queries.HourlyRow` carries the hour as a number (9), where the source's row and its JSON carry the two-digit text ("09"); both sort the same because the text is zero-padded.
- The table DDL beyond keys and defaults, the indexes (src/lib/database.ts:54-58) and the `daily_user_stats` table (src/lib/database.ts:37), which no query reads: they do not change query results.
- `getAllUsers` (src/lib/database.ts:134): no route calls it.
- The `GET` handlers of the track and sync-users routes: they return fixed documentation text.
- `Promise.all`: the dashboard queries read one snapshot sequentially.
- Row order of a `GROUP BY` without `ORDER BY`, and among equal ranks: the model fixes first appearance, with a stable sort. SQLite leaves this order unspecified.
- Queries.GetInteractionsByDateRange: a stored `record_date` is taken to be TEXT. The `CURRENT_TIMESTAMP` default always is. A numeric-literal stored value, and number-to-number comparison, are not modelled. Numeric literals follow SQLite's decimal syntax; hexadecimal and the other text-to-number forms are not modelled. A bare-day end bound excludes that whole day (`Queries.BareDayEndExcludesThatDay`).
- DashboardRoute.BucketByDay: `Object.values` (src/app/api/dashboard/route.ts:123) lists integer-like keys first, in numeric order. The model keeps pure insertion order. Keys from stored timestamps are never integer-like.
- `x-forwarded-for` is taken whole, as the code does; a list of proxies is not split.

## Findings

| source | as written | input that shows it | evidently intended | confidence | as-written member | corrected member |
|---|---|---|---|---|---|---|
| src/app/api/dashboard/route.ts:105 | The day key is `record_date.split('T')[0]`. SQLite's `CURRENT_TIMESTAMP` text is "YYYY-MM-DD HH:MM:SS", with no 'T', so the key is the whole timestamp. | Records stamped "2024-01-15 09:30:00" and "2024-01-15 14:05:00" give two time-series buckets | One bucket per calendar day | not executed | DashboardRoute.RangeReportOf | DashboardRoute.RangeReportByDay |
| src/app/api/sync-users/route.ts:35 | `user.uid` throws on a `null` element. The `catch` at line 46 reads `user.uid` again and throws too, so the outer `catch` answers 500. The entries before the `null` have already been upserted. | `users: [{uid: "u1", name: "A", department: "d"}, null]` answers 500 after writing "u1" | A `null` element is reported and skipped like an incomplete entry | not executed | SyncUsersRoute.SyncUsers | SyncUsersRoute.SyncUsersSkippingNull |

For the first row, `DashboardRoute.SplitKeySplitsOneDay` shows the discrepancy for the as-written key `DashboardRoute.SplitDateKey`. `DashboardRoute.CalendarDayKeepsOneDay` and `DashboardRoute.OneBucketPerDay` prove one bucket per calendar day for the corrected key `DashboardRoute.CalendarDay`. Both handlers share the loop `DashboardRoute.BucketByDay`, which takes the key as a parameter.

For the second row, `SyncUsersRoute.NullAfterUpsertLeavesPartialSync` shows the partial write, and `SyncUsersRoute.NullEntryIsSkipped` shows the corrected treatment.
