/**
 * The read-side prepared statements of the event store: the per-day
 * aggregations (`getUserStats`, `getDepartmentStats`, `getSystemSectionStats`,
 * `getFunctionStats`, `getUserProductivity`, `getHourlyActivity`) and the two
 * listings (`getRecentInteractions`, `getInteractionsByDateRange`), each as a
 * function of a snapshot of the two tables.
 *
 * A `GROUP BY` without `ORDER BY` lists its groups in an order SQLite leaves
 * unspecified; the model lists them in order of first appearance in the log.
 * Ties of an `ORDER BY` keep that order.
 */
module Queries {
  import opened Wrappers
  import opened Records
  import opened Collections
  import opened Text

  // ----- Columns and group keys -----

  function UidOf(r: Interaction): string { r.userUid }
  function DepartmentOf(r: Interaction): string { r.userDepartment }
  function SectionOf(r: Interaction): string { r.systemSection }
  function FunctionOf(r: Interaction): string { r.systemFunction }
  function HourOf(r: Interaction): nat { r.recordDate.hour }
  /** `GROUP BY user_uid, user_department` */
  function UserKey(r: Interaction): (string, string) { (r.userUid, r.userDepartment) }
  /** `GROUP BY system_function, system_section` */
  function FunctionKey(r: Interaction): (string, string) { (r.systemFunction, r.systemSection) }

  function DayIs(date: string): Interaction -> bool
  {
    (r: Interaction) => r.recordDate.day == date
  }

  /** `WHERE DATE(record_date) = ?` */
  function OnDay(log: seq<Interaction>, date: string): (day: seq<Interaction>)
    ensures forall r :: r in day <==> r in log && r.recordDate.day == date
  {
    Filter(log, DayIs(date))
  }

  /** `LEFT JOIN users u ON ui.user_uid = u.uid` yields u.name, or NULL when there is no such user. */
  function NameOf(users: map<string, User>, uid: string): Option<string>
  {
    if uid in users then Some(users[uid].name) else None
  }

  // ----- getUserStats -----

  datatype UserStatsRow = UserStatsRow(userUid: string, userDepartment: string, totalInteractions: nat,
                                       uniqueFunctionsUsed: nat, date: string)

  function UserRowKey(row: UserStatsRow): (string, string) { (row.userUid, row.userDepartment) }
  function UserRowTotal(row: UserStatsRow): nat { row.totalInteractions }

  function UserStatsRowOf(day: seq<Interaction>, k: (string, string), date: string): UserStatsRow
  {
    var g := Group(day, UserKey, k);
    UserStatsRow(k.0, k.1, |g|, |Image(g, FunctionOf)|, date)
  }

  /** One row per (user_uid, user_department) among the records of the date. */
  function GetUserStats(log: seq<Interaction>, date: string): (rows: seq<UserStatsRow>)
    ensures IsGrouping(rows, UserRowKey, OnDay(log, date), UserKey)
    ensures forall i :: 0 <= i < |rows| ==>
      var g := Group(OnDay(log, date), UserKey, UserRowKey(rows[i]));
      && rows[i].totalInteractions == |g|
      && rows[i].uniqueFunctionsUsed == |Image(g, FunctionOf)|
      && 1 <= rows[i].uniqueFunctionsUsed <= rows[i].totalInteractions
      && rows[i].date == date
  {
    var day := OnDay(log, date);
    GroupRows(day, UserKey, k => UserStatsRowOf(day, k, date), UserRowKey)
  }

  /** The user rows' totals add up to the number of records of the date. */
  lemma UserStatsTotal(log: seq<Interaction>, date: string)
    ensures SumBy(GetUserStats(log, date), UserRowTotal) == |OnDay(log, date)|
  {
    GroupCountsSum(OnDay(log, date), UserKey, GetUserStats(log, date), UserRowKey, UserRowTotal);
  }

  // ----- getDepartmentStats -----

  datatype DepartmentStatsRow = DepartmentStatsRow(userDepartment: string, totalInteractions: nat,
                                                   activeUsers: nat, date: string)

  function DepartmentRowKey(row: DepartmentStatsRow): string { row.userDepartment }
  function DepartmentRowTotal(row: DepartmentStatsRow): nat { row.totalInteractions }

  function DepartmentStatsRowOf(day: seq<Interaction>, k: string, date: string): DepartmentStatsRow
  {
    var g := Group(day, DepartmentOf, k);
    DepartmentStatsRow(k, |g|, |Image(g, UidOf)|, date)
  }

  /** One row per user_department among the records of the date. */
  function GetDepartmentStats(log: seq<Interaction>, date: string): (rows: seq<DepartmentStatsRow>)
    ensures IsGrouping(rows, DepartmentRowKey, OnDay(log, date), DepartmentOf)
    ensures forall i :: 0 <= i < |rows| ==>
      var g := Group(OnDay(log, date), DepartmentOf, rows[i].userDepartment);
      && rows[i].totalInteractions == |g|
      && rows[i].activeUsers == |Image(g, UidOf)|
      && 1 <= rows[i].activeUsers <= rows[i].totalInteractions
      && rows[i].date == date
  {
    var day := OnDay(log, date);
    GroupRows(day, DepartmentOf, k => DepartmentStatsRowOf(day, k, date), DepartmentRowKey)
  }

  lemma DepartmentStatsTotal(log: seq<Interaction>, date: string)
    ensures SumBy(GetDepartmentStats(log, date), DepartmentRowTotal) == |OnDay(log, date)|
  {
    GroupCountsSum(OnDay(log, date), DepartmentOf, GetDepartmentStats(log, date), DepartmentRowKey, DepartmentRowTotal);
  }

  // ----- getSystemSectionStats -----

  datatype SectionStatsRow = SectionStatsRow(systemSection: string, totalInteractions: nat,
                                             uniqueUsers: nat, date: string)

  function SectionRowKey(row: SectionStatsRow): string { row.systemSection }
  function SectionRowTotal(row: SectionStatsRow): nat { row.totalInteractions }

  function SectionStatsRowOf(day: seq<Interaction>, k: string, date: string): SectionStatsRow
  {
    var g := Group(day, SectionOf, k);
    SectionStatsRow(k, |g|, |Image(g, UidOf)|, date)
  }

  /** One row per system_section among the records of the date. */
  function GetSystemSectionStats(log: seq<Interaction>, date: string): (rows: seq<SectionStatsRow>)
    ensures IsGrouping(rows, SectionRowKey, OnDay(log, date), SectionOf)
    ensures forall i :: 0 <= i < |rows| ==>
      var g := Group(OnDay(log, date), SectionOf, rows[i].systemSection);
      && rows[i].totalInteractions == |g|
      && rows[i].uniqueUsers == |Image(g, UidOf)|
      && 1 <= rows[i].uniqueUsers <= rows[i].totalInteractions
      && rows[i].date == date
  {
    var day := OnDay(log, date);
    GroupRows(day, SectionOf, k => SectionStatsRowOf(day, k, date), SectionRowKey)
  }

  lemma SectionStatsTotal(log: seq<Interaction>, date: string)
    ensures SumBy(GetSystemSectionStats(log, date), SectionRowTotal) == |OnDay(log, date)|
  {
    GroupCountsSum(OnDay(log, date), SectionOf, GetSystemSectionStats(log, date), SectionRowKey, SectionRowTotal);
  }

  // ----- getFunctionStats -----

  datatype FunctionStatsRow = FunctionStatsRow(systemFunction: string, systemSection: string, usageCount: nat,
                                               uniqueUsers: nat, date: string)

  function FunctionRowKey(row: FunctionStatsRow): (string, string) { (row.systemFunction, row.systemSection) }
  function FunctionRowCount(row: FunctionStatsRow): nat { row.usageCount }
  function FunctionRowRank(row: FunctionStatsRow): int { row.usageCount }

  function FunctionStatsRowOf(day: seq<Interaction>, k: (string, string), date: string): FunctionStatsRow
  {
    var g := Group(day, FunctionKey, k);
    FunctionStatsRow(k.0, k.1, |g|, |Image(g, UidOf)|, date)
  }

  /** One row per (system_function, system_section) of the date, `ORDER BY usage_count DESC`. */
  function GetFunctionStats(log: seq<Interaction>, date: string): (rows: seq<FunctionStatsRow>)
    ensures IsGrouping(rows, FunctionRowKey, OnDay(log, date), FunctionKey)
    ensures forall i, j :: 0 <= i < j < |rows| ==> rows[i].usageCount >= rows[j].usageCount
    ensures forall i :: 0 <= i < |rows| ==>
      var g := Group(OnDay(log, date), FunctionKey, FunctionRowKey(rows[i]));
      && rows[i].usageCount == |g|
      && rows[i].uniqueUsers == |Image(g, UidOf)|
      && 1 <= rows[i].uniqueUsers <= rows[i].usageCount
      && rows[i].date == date
  {
    var day := OnDay(log, date);
    SortedGroupRows(day, FunctionKey, k => FunctionStatsRowOf(day, k, date), FunctionRowKey, FunctionRowRank)
  }

  lemma FunctionStatsTotal(log: seq<Interaction>, date: string)
    ensures SumBy(GetFunctionStats(log, date), FunctionRowCount) == |OnDay(log, date)|
  {
    GroupCountsSum(OnDay(log, date), FunctionKey, GetFunctionStats(log, date), FunctionRowKey, FunctionRowCount);
  }

  // ----- getUserProductivity -----

  /**
   * `system_function LIKE '%quotation%' OR system_function LIKE '%proposal%'`.
   * SQLite's LIKE ignores the case of ASCII letters.
   */
  predicate IsQuotationFunction(fn: string)
  {
    ContainsIgnoringCase(fn, "quotation") || ContainsIgnoringCase(fn, "proposal")
  }

  /** `system_function LIKE '%report%'` */
  predicate IsReportFunction(fn: string)
  {
    ContainsIgnoringCase(fn, "report")
  }

  /** The quotation classifier means the two `LIKE` patterns, in both directions. */
  lemma QuotationFunctionIsLike(fn: string)
    ensures IsQuotationFunction(fn) <==> LikeSubstring(fn, "quotation") || LikeSubstring(fn, "proposal")
  {
    ContainsIgnoringCaseIsLike(fn, "quotation");
    ContainsIgnoringCaseIsLike(fn, "proposal");
  }

  /** The report classifier means `LIKE '%report%'`, in both directions. */
  lemma ReportFunctionIsLike(fn: string)
    ensures IsReportFunction(fn) <==> LikeSubstring(fn, "report")
  {
    ContainsIgnoringCaseIsLike(fn, "report");
  }

  /** A function name in which neither "qu" nor "pr" occurs, up to case, is no quotation. */
  lemma NotQuotationFunction(fn: string)
    requires forall i :: 0 <= i < |fn| - 1 ==> LowerAscii(fn[i]) != 'q' || LowerAscii(fn[i + 1]) != 'u'
    requires forall i :: 0 <= i < |fn| - 1 ==> LowerAscii(fn[i]) != 'p' || LowerAscii(fn[i + 1]) != 'r'
    ensures !IsQuotationFunction(fn)
  {
    NoLeadingPair(fn, "quotation");
    NoLeadingPair(fn, "proposal");
  }

  /** A function name in which "re" does not occur, up to case, is no report. */
  lemma NotReportFunction(fn: string)
    requires forall i :: 0 <= i < |fn| - 1 ==> LowerAscii(fn[i]) != 'r' || LowerAscii(fn[i + 1]) != 'e'
    ensures !IsReportFunction(fn)
  {
    NoLeadingPair(fn, "report");
  }

  predicate IsQuotationRecord(r: Interaction) { IsQuotationFunction(r.systemFunction) }
  predicate IsReportRecord(r: Interaction) { IsReportFunction(r.systemFunction) }

  datatype ProductivityRow = ProductivityRow(userUid: string, userName: Option<string>, userDepartment: string,
                                             quotationsGenerated: nat, reportsWritten: nat,
                                             totalInteractions: nat, date: string)

  function ProductivityRowKey(row: ProductivityRow): (string, string) { (row.userUid, row.userDepartment) }
  function ProductivityRowTotal(row: ProductivityRow): nat { row.totalInteractions }
  function ProductivityRowRank(row: ProductivityRow): int { row.totalInteractions }

  function ProductivityRowOf(day: seq<Interaction>, users: map<string, User>, k: (string, string), date: string): ProductivityRow
  {
    var g := Group(day, UserKey, k);
    ProductivityRow(k.0, NameOf(users, k.0), k.1, |Filter(g, IsQuotationRecord)|, |Filter(g, IsReportRecord)|, |g|, date)
  }

  /**
   * One row per (user_uid, user_department) of the date, counting the
   * quotation-like and report-like functions, `ORDER BY total_interactions DESC`.
   */
  function GetUserProductivity(log: seq<Interaction>, users: map<string, User>, date: string): (rows: seq<ProductivityRow>)
    ensures IsGrouping(rows, ProductivityRowKey, OnDay(log, date), UserKey)
    ensures forall i, j :: 0 <= i < j < |rows| ==> rows[i].totalInteractions >= rows[j].totalInteractions
    ensures forall i :: 0 <= i < |rows| ==>
      var g := Group(OnDay(log, date), UserKey, ProductivityRowKey(rows[i]));
      && rows[i].totalInteractions == |g|
      && rows[i].quotationsGenerated == |Filter(g, IsQuotationRecord)| <= rows[i].totalInteractions
      && rows[i].reportsWritten == |Filter(g, IsReportRecord)| <= rows[i].totalInteractions
      && rows[i].userName == NameOf(users, rows[i].userUid)
      && rows[i].date == date
  {
    var day := OnDay(log, date);
    SortedGroupRows(day, UserKey, k => ProductivityRowOf(day, users, k, date), ProductivityRowKey, ProductivityRowRank)
  }

  lemma UserProductivityTotal(log: seq<Interaction>, users: map<string, User>, date: string)
    ensures SumBy(GetUserProductivity(log, users, date), ProductivityRowTotal) == |OnDay(log, date)|
  {
    GroupCountsSum(OnDay(log, date), UserKey, GetUserProductivity(log, users, date), ProductivityRowKey, ProductivityRowTotal);
  }

  // ----- getHourlyActivity -----

  /** `hour` is strftime('%H', …) as a number; its two-digit text sorts the same way. */
  datatype HourlyRow = HourlyRow(hour: nat, interactionCount: nat)

  function HourRowKey(row: HourlyRow): nat { row.hour }
  function HourRowCount(row: HourlyRow): nat { row.interactionCount }
  /** `ORDER BY hour` ascending is descending order of the negated hour. */
  function HourRowRank(row: HourlyRow): int { -(row.hour as int) }

  function HourlyRowOf(day: seq<Interaction>, h: nat): HourlyRow
  {
    HourlyRow(h, |Group(day, HourOf, h)|)
  }

  /** Non-increasing negated hours that are pairwise different are strictly ascending hours. */
  lemma AscendingHours(rows: seq<HourlyRow>)
    requires SortedDesc(rows, HourRowRank) && UniqueBy(rows, HourRowKey)
    ensures forall i, j :: 0 <= i < j < |rows| ==> rows[i].hour < rows[j].hour
  {
    forall i, j | 0 <= i < j < |rows|
      ensures rows[i].hour < rows[j].hour
    {
      assert HourRowRank(rows[i]) >= HourRowRank(rows[j]);
      assert HourRowKey(rows[i]) != HourRowKey(rows[j]);
    }
  }

  /** One row per hour of day among the records of the date, in ascending hour. */
  function GetHourlyActivity(log: seq<Interaction>, date: string): (rows: seq<HourlyRow>)
    ensures IsGrouping(rows, HourRowKey, OnDay(log, date), HourOf)
    ensures forall i, j :: 0 <= i < j < |rows| ==> rows[i].hour < rows[j].hour
    ensures forall i :: 0 <= i < |rows| ==>
      1 <= rows[i].interactionCount == |Group(OnDay(log, date), HourOf, rows[i].hour)|
  {
    var day := OnDay(log, date);
    var rows := SortedGroupRows(day, HourOf, h => HourlyRowOf(day, h), HourRowKey, HourRowRank);
    AscendingHours(rows);
    rows
  }

  lemma HourlyActivityTotal(log: seq<Interaction>, date: string)
    ensures SumBy(GetHourlyActivity(log, date), HourRowCount) == |OnDay(log, date)|
  {
    GroupCountsSum(OnDay(log, date), HourOf, GetHourlyActivity(log, date), HourRowKey, HourRowCount);
  }

  // ----- ORDER BY record_date DESC -----

  /** Non-increasing record_date, compared as TEXT. */
  predicate NewestFirst(s: seq<Interaction>)
  {
    forall i, j :: 0 <= i < j < |s| ==> LexLe(s[j].recordDate.text, s[i].recordDate.text)
  }

  lemma PrependNewest(x: Interaction, s: seq<Interaction>)
    requires NewestFirst(s)
    requires forall k :: 0 <= k < |s| ==> LexLe(s[k].recordDate.text, x.recordDate.text)
    ensures NewestFirst([x] + s)
  {
    forall i, j | 0 <= i < j < |[x] + s|
      ensures LexLe(([x] + s)[j].recordDate.text, ([x] + s)[i].recordDate.text)
    {
      assert ([x] + s)[j] == s[j - 1];
      if i > 0 {
        assert ([x] + s)[i] == s[i - 1];
      }
    }
  }

  lemma NewerThanRest(x: Interaction, s: seq<Interaction>)
    requires NewestFirst(s) && s != []
    requires LexLe(s[0].recordDate.text, x.recordDate.text)
    ensures forall k :: 0 <= k < |s| ==> LexLe(s[k].recordDate.text, x.recordDate.text)
  {
    forall k | 0 < k < |s|
      ensures LexLe(s[k].recordDate.text, x.recordDate.text)
    {
      LexLeTransitive(s[k].recordDate.text, s[0].recordDate.text, x.recordDate.text);
    }
  }

  /** A record at least as new as s's records and as x is at least as new as a permutation of s plus x. */
  lemma NewerAfterInsert(t: seq<Interaction>, s: seq<Interaction>, x: Interaction, y: Interaction)
    requires multiset(t) == multiset(s) + multiset{x}
    requires forall k :: 0 <= k < |s| ==> LexLe(s[k].recordDate.text, y.recordDate.text)
    requires LexLe(x.recordDate.text, y.recordDate.text)
    ensures forall k :: 0 <= k < |t| ==> LexLe(t[k].recordDate.text, y.recordDate.text)
  {
    forall k | 0 <= k < |t|
      ensures LexLe(t[k].recordDate.text, y.recordDate.text)
    {
      assert t[k] in multiset(t);
      if t[k] != x {
        assert t[k] in multiset(s);
        var m :| 0 <= m < |s| && s[m] == t[k];
      }
    }
  }

  /** Places x after every record at least as new. */
  function InsertNewest(x: Interaction, s: seq<Interaction>): (r: seq<Interaction>)
    requires NewestFirst(s)
    ensures NewestFirst(r)
    ensures multiset(r) == multiset(s) + multiset{x}
    decreases |s|
  {
    if s == [] then [x]
    else if !LexLe(x.recordDate.text, s[0].recordDate.text) then
      LexLeTotal(x.recordDate.text, s[0].recordDate.text);
      NewerThanRest(x, s);
      PrependNewest(x, s);
      [x] + s
    else
      assert s == [s[0]] + s[1..];
      var t := InsertNewest(x, s[1..]);
      assert forall k :: 0 <= k < |s[1..]| ==> s[1..][k] == s[k + 1];
      NewerAfterInsert(t, s[1..], x, s[0]);
      PrependNewest(s[0], t);
      [s[0]] + t
  }

  function SortNewestFirst(s: seq<Interaction>): (r: seq<Interaction>)
    ensures NewestFirst(r)
    ensures multiset(r) == multiset(s)
    decreases |s|
  {
    if s == [] then []
    else
      assert s == s[..|s| - 1] + [s[|s| - 1]];
      InsertNewest(s[|s| - 1], SortNewestFirst(s[..|s| - 1]))
  }

  // ----- getRecentInteractions -----

  /** `SELECT ui.*, u.name as user_name`: a record with its user's name joined in. */
  datatype RecentRow = RecentRow(interaction: Interaction, userName: Option<string>)

  function RecordsOf(rows: seq<RecentRow>): (rs: seq<Interaction>)
    ensures |rs| == |rows|
    ensures forall i :: 0 <= i < |rows| ==> rs[i] == rows[i].interaction
  {
    seq(|rows|, i requires 0 <= i < |rows| => rows[i].interaction)
  }

  /** A prefix of a newest-first listing holds the newest records: each one left out is no newer. */
  lemma NewestPrefix(sorted: seq<Interaction>, n: nat)
    requires NewestFirst(sorted) && n <= |sorted|
    ensures NewestFirst(sorted[..n])
    ensures multiset(sorted[..n]) <= multiset(sorted)
    ensures forall x :: multiset(sorted[..n])[x] < multiset(sorted)[x] ==>
      forall i :: 0 <= i < n ==> LexLe(x.recordDate.text, sorted[..n][i].recordDate.text)
  {
    assert sorted == sorted[..n] + sorted[n..];
    assert multiset(sorted) == multiset(sorted[..n]) + multiset(sorted[n..]);
    forall x | multiset(sorted[..n])[x] < multiset(sorted)[x]
      ensures forall i :: 0 <= i < n ==> LexLe(x.recordDate.text, sorted[..n][i].recordDate.text)
    {
      assert x in multiset(sorted[n..]);
      var j :| 0 <= j < |sorted[n..]| && sorted[n..][j] == x;
      assert sorted[n + j] == x;
    }
  }

  /**
   * `ORDER BY record_date DESC LIMIT ?` over the records: the `limit` newest,
   * newest first; every record left out is at most as new as every record kept.
   */
  function NewestRecords(log: seq<Interaction>, limit: nat): (top: seq<Interaction>)
    ensures |top| == if limit < |log| then limit else |log|
    ensures NewestFirst(top)
    ensures multiset(top) <= multiset(log)
    ensures forall x :: multiset(top)[x] < multiset(log)[x] ==>
      forall i :: 0 <= i < |top| ==> LexLe(x.recordDate.text, top[i].recordDate.text)
  {
    var sorted := SortNewestFirst(log);
    var n := if limit < |sorted| then limit else |sorted|;
    NewestPrefix(sorted, n);
    sorted[..n]
  }

  /** `getRecentInteractions`: the newest records, each with its user's name joined in. */
  function GetRecentInteractions(log: seq<Interaction>, users: map<string, User>, limit: nat): (rows: seq<RecentRow>)
    ensures RecordsOf(rows) == NewestRecords(log, limit)
    ensures forall i :: 0 <= i < |rows| ==> rows[i].userName == NameOf(users, rows[i].interaction.userUid)
  {
    var top := NewestRecords(log, limit);
    var rows := seq(|top|, i requires 0 <= i < |top| => RecentRow(top[i], NameOf(users, top[i].userUid)));
    assert RecordsOf(rows) == top;
    rows
  }

  // ----- getInteractionsByDateRange -----

  /**
   * `record_date >= ? AND record_date <= ?`. The column is declared DATETIME,
   * so it has NUMERIC affinity and each bound takes that affinity: a bound that
   * is a numeric literal becomes a number, which sorts before every TEXT value,
   * so it admits every stored timestamp as a start and none as an end. Any
   * other bound stays TEXT and is compared as text.
   */
  predicate InRange(r: Interaction, startDate: string, endDate: string)
  {
    && (NumericLiteral(startDate) || LexLe(startDate, r.recordDate.text))
    && !NumericLiteral(endDate) && LexLe(r.recordDate.text, endDate)
  }

  function InRangeOf(startDate: string, endDate: string): Interaction -> bool
  {
    (r: Interaction) => InRange(r, startDate, endDate)
  }

  /** Exactly the records whose record_date lies between the bounds, newest first. */
  function GetInteractionsByDateRange(log: seq<Interaction>, startDate: string, endDate: string): (rs: seq<Interaction>)
    ensures forall r :: r in rs <==> r in log && InRange(r, startDate, endDate)
    ensures multiset(rs) == multiset(Filter(log, InRangeOf(startDate, endDate)))
    ensures NewestFirst(rs)
  {
    var selected := Filter(log, InRangeOf(startDate, endDate));
    var rs := SortNewestFirst(selected);
    forall r
      ensures r in rs <==> r in log && InRange(r, startDate, endDate)
    {
      assert r in rs <==> r in multiset(rs);
      assert r in selected <==> r in multiset(selected);
    }
    rs
  }

  /** A numeric start bound such as "2024" drops the lower limit: earlier years are listed too. */
  lemma NumericStartAdmitsAll(log: seq<Interaction>, startDate: string, endDate: string)
    requires NumericLiteral(startDate)
    ensures forall r :: r in GetInteractionsByDateRange(log, startDate, endDate) <==>
      r in log && !NumericLiteral(endDate) && LexLe(r.recordDate.text, endDate)
  {
  }

  /** A numeric end bound such as "2025" admits no stored timestamp. */
  lemma NumericEndAdmitsNone(log: seq<Interaction>, startDate: string, endDate: string)
    requires NumericLiteral(endDate)
    ensures GetInteractionsByDateRange(log, startDate, endDate) == []
  {
    FilterNone(log, InRangeOf(startDate, endDate));
    assert |multiset(GetInteractionsByDateRange(log, startDate, endDate))| == 0;
  }

  /**
   * An end bound written as a bare day, such as "2024-01-15", is a proper
   * prefix of every timestamp of that day, which therefore sorts after it:
   * the whole end day is left out.
   */
  lemma BareDayEndExcludesThatDay(r: Interaction, startDate: string, endDate: string)
    requires |endDate| < |r.recordDate.text| && r.recordDate.text[..|endDate|] == endDate
    ensures !InRange(r, startDate, endDate)
  {
    ExtensionSortsAfter(r.recordDate.text, endDate);
  }
}
