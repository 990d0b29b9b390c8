/**
 * The dashboard route: `GET` composes the per-day queries into one payload
 * with summary totals and top-10 lists; `POST` lists the records of a range
 * and buckets them into a time series.
 */
module DashboardRoute {
  import opened Wrappers
  import opened Records
  import opened Collections
  import opened Text
  import opened Api
  import opened Queries

  /** `getRecentInteractions.all(50)` */
  const RecentLimit: nat := 50
  /** `.slice(0, 10)` */
  const TopCount: nat := 10

  /**
   * `searchParams.get('date') || new Date().toISOString().split('T')[0]`:
   * the query parameter when it is non-empty, otherwise the date part of the
   * clock's ISO text `clock`.
   */
  function DashboardDate(param: Option<string>, clock: string): (date: string)
    ensures Truthy(param) ==> date == param.value
    ensures !Truthy(param) ==> IsPrefix(date, clock) && 'T' !in date
    ensures !Truthy(param) ==> date == clock || clock[|date|] == 'T'
  {
    if Truthy(param) then param.value else BeforeFirstT(clock)
  }

  /** JavaScript's `s.slice(0, n)`. */
  function Take<T>(s: seq<T>, n: nat): (r: seq<T>)
    ensures |r| == if n < |s| then n else |s|
    ensures r == s[..|r|]
  {
    if n < |s| then s[..n] else s
  }

  datatype Summary = Summary(totalInteractions: nat, activeUsers: nat, departments: nat, systemSections: nat)

  datatype DashboardPayload = DashboardPayload(
    date: string,
    summary: Summary,
    userStats: seq<UserStatsRow>,
    departmentStats: seq<DepartmentStatsRow>,
    systemSectionStats: seq<SectionStatsRow>,
    functionStats: seq<FunctionStatsRow>,
    recentInteractions: seq<RecentRow>,
    userProductivity: seq<ProductivityRow>,
    hourlyActivity: seq<HourlyRow>,
    topUsers: seq<ProductivityRow>,
    topFunctions: seq<FunctionStatsRow>)

  /**
   * The `summary` object: the interaction count, computed as the sum of the
   * user rows' totals, is the number of records of the date, and each other
   * count is a number of rows, so at most that.
   */
  function SummaryOf(log: seq<Interaction>, date: string): (sum: Summary)
    ensures sum.totalInteractions == |OnDay(log, date)|
    ensures sum.activeUsers == |GetUserStats(log, date)| <= sum.totalInteractions
    ensures sum.departments == |GetDepartmentStats(log, date)| <= sum.totalInteractions
    ensures sum.systemSections == |GetSystemSectionStats(log, date)| <= sum.totalInteractions
  {
    var day := OnDay(log, date);
    var userStats := GetUserStats(log, date);
    var departmentStats := GetDepartmentStats(log, date);
    var sectionStats := GetSystemSectionStats(log, date);
    UserStatsTotal(log, date);
    GroupCountBound(userStats, UserRowKey, day, UserKey);
    GroupCountBound(departmentStats, DepartmentRowKey, day, DepartmentOf);
    GroupCountBound(sectionStats, SectionRowKey, day, SectionOf);
    Summary(SumBy(userStats, UserRowTotal), |userStats|, |departmentStats|, |sectionStats|)
  }

  /** The `GET` payload for one date, all queries read from one snapshot, with the top-10 lists. */
  function BuildDashboard(log: seq<Interaction>, users: map<string, User>, date: string): (p: DashboardPayload)
    ensures p.date == date && p.summary == SummaryOf(log, date)
    ensures p.userStats == GetUserStats(log, date)
    ensures p.departmentStats == GetDepartmentStats(log, date)
    ensures p.systemSectionStats == GetSystemSectionStats(log, date)
    ensures p.functionStats == GetFunctionStats(log, date)
    ensures p.recentInteractions == GetRecentInteractions(log, users, RecentLimit)
    ensures p.userProductivity == GetUserProductivity(log, users, date)
    ensures p.hourlyActivity == GetHourlyActivity(log, date)
    ensures p.topUsers == Take(p.userProductivity, TopCount)
    ensures p.topFunctions == Take(p.functionStats, TopCount)
  {
    var productivity := GetUserProductivity(log, users, date);
    var functionStats := GetFunctionStats(log, date);
    DashboardPayload(date, SummaryOf(log, date), GetUserStats(log, date), GetDepartmentStats(log, date),
                     GetSystemSectionStats(log, date), functionStats,
                     GetRecentInteractions(log, users, RecentLimit), productivity, GetHourlyActivity(log, date),
                     Take(productivity, TopCount), Take(functionStats, TopCount))
  }

  /** The `GET` handler: the dashboard for the requested date, or for today's. */
  function DashboardGet(log: seq<Interaction>, users: map<string, User>, param: Option<string>, clock: string): (p: DashboardPayload)
    ensures Truthy(param) ==> p.date == param.value
    ensures !Truthy(param) ==> p.date == BeforeFirstT(clock)
    ensures p == BuildDashboard(log, users, p.date)
  {
    BuildDashboard(log, users, DashboardDate(param, clock))
  }

  /** A date without records gives an all-zero summary and empty per-day lists. */
  lemma EmptyDayDashboard(log: seq<Interaction>, users: map<string, User>, date: string)
    requires OnDay(log, date) == []
    ensures var p := BuildDashboard(log, users, date);
      && p.summary == Summary(0, 0, 0, 0)
      && p.userStats == [] && p.departmentStats == [] && p.systemSectionStats == []
      && p.functionStats == [] && p.userProductivity == [] && p.hourlyActivity == []
      && p.topUsers == [] && p.topFunctions == []
  {
    GroupCountBound(GetFunctionStats(log, date), FunctionRowKey, [], FunctionKey);
    GroupCountBound(GetUserProductivity(log, users, date), ProductivityRowKey, [], UserKey);
    GroupCountBound(GetHourlyActivity(log, date), HourRowKey, [], HourOf);
  }

  // ----- POST: range report -----

  datatype RangeRequest = RangeRequest(startDate: Option<string>, endDate: Option<string>)

  /** One element of `time_series`. */
  datatype DayBucket = DayBucket(date: string, totalInteractions: nat, uniqueUsers: nat,
                                 departments: nat, systemSections: nat)

  datatype RangeResponse =
    | RangeBadRequest
    | RangeReport(startDate: string, endDate: string, totalInteractions: nat,
                  timeSeries: seq<DayBucket>, rawInteractions: seq<Interaction>)

  /** `interaction.record_date.split('T')[0]`, the bucket key the route uses. */
  function SplitDateKey(r: Interaction): (key: string)
    ensures IsPrefix(key, r.recordDate.text) && 'T' !in key
    ensures key == r.recordDate.text || r.recordDate.text[|key|] == 'T'
    ensures 'T' !in r.recordDate.text ==> key == r.recordDate.text
  {
    BeforeFirstT(r.recordDate.text)
  }

  function BucketDate(b: DayBucket): string { b.date }
  function BucketTotal(b: DayBucket): nat { b.totalInteractions }

  function BucketOf(rs: seq<Interaction>, keyOf: Interaction -> string, k: string): DayBucket
  {
    var g := Group(rs, keyOf, k);
    DayBucket(k, |g|, |Image(g, UidOf)|, |Image(g, DepartmentOf)|, |Image(g, SectionOf)|)
  }

  /**
   * The time series the reduce builds: one bucket per distinct key, in order of
   * first appearance, whose counts are the set sizes of that bucket's records only.
   */
  function TimeSeries(rs: seq<Interaction>, keyOf: Interaction -> string): (series: seq<DayBucket>)
    ensures IsGrouping(series, BucketDate, rs, keyOf)
    ensures |series| == |DistinctKeys(rs, keyOf)|
    ensures forall i :: 0 <= i < |series| ==> series[i].date == DistinctKeys(rs, keyOf)[i]
    ensures forall i :: 0 <= i < |series| ==> series[i] == BucketOf(rs, keyOf, series[i].date)
  {
    GroupRows(rs, keyOf, k => BucketOf(rs, keyOf, k), BucketDate)
  }

  /**
   * Each bucket counts that key's records, and its user, department and
   * section counts are distinct values among those records only.
   */
  lemma TimeSeriesBuckets(rs: seq<Interaction>, keyOf: Interaction -> string, i: nat)
    requires i < |TimeSeries(rs, keyOf)|
    ensures var b, g := TimeSeries(rs, keyOf)[i], Group(rs, keyOf, TimeSeries(rs, keyOf)[i].date);
      && b.totalInteractions == |g| >= 1
      && b.uniqueUsers == |Image(g, UidOf)| <= b.totalInteractions
      && b.departments == |Image(g, DepartmentOf)| <= b.totalInteractions
      && b.systemSections == |Image(g, SectionOf)| <= b.totalInteractions
  {
    var b := TimeSeries(rs, keyOf)[i];
    var x := DistinctKeyWitness(rs, keyOf, b.date);
    assert x in Group(rs, keyOf, b.date);
  }

  /** The bucket totals add up to the number of records bucketed. */
  lemma TimeSeriesTotal(rs: seq<Interaction>, keyOf: Interaction -> string)
    ensures SumBy(TimeSeries(rs, keyOf), BucketTotal) == |rs|
  {
    GroupCountsSum(rs, keyOf, TimeSeries(rs, keyOf), BucketDate, BucketTotal);
  }

  // ----- the bucket key -----

  /**
   * The key the reduce evidently means to bucket by: the record's calendar
   * day, the value `DATE(record_date)` gives.
   */
  function CalendarDay(r: Interaction): string
  {
    r.recordDate.day
  }

  function StoredText(r: Interaction): string
  {
    r.recordDate.text
  }

  /** A stored text without a 'T' is its own split key. */
  lemma SplitKeepsText(r: Interaction)
    requires 'T' !in r.recordDate.text
    ensures SplitDateKey(r) == StoredText(r)
  {
  }

  /**
   * As written: the stored "YYYY-MM-DD HH:MM:SS" text has no 'T', so the split
   * keeps all of it and there is one bucket per distinct stored timestamp.
   */
  lemma SplitKeyIsStoredText(rs: seq<Interaction>)
    requires forall r :: r in rs ==> 'T' !in r.recordDate.text
    ensures |TimeSeries(rs, SplitDateKey)| == |Image(rs, StoredText)|
  {
    forall r | r in rs
      ensures SplitDateKey(r) == StoredText(r)
    {
      SplitKeepsText(r);
    }
    ImageAgree(rs, SplitDateKey, StoredText);
    DistinctKeysCount(rs, SplitDateKey);
  }

  /** Corrected: with the calendar day as key there is one bucket per day of the range. */
  lemma OneBucketPerDay(rs: seq<Interaction>)
    ensures |TimeSeries(rs, CalendarDay)| == |Image(rs, CalendarDay)|
    ensures forall i :: 0 <= i < |TimeSeries(rs, CalendarDay)| ==>
      TimeSeries(rs, CalendarDay)[i].date in Image(rs, CalendarDay)
  {
    DistinctKeysCount(rs, CalendarDay);
    DistinctKeysAreImage(rs, CalendarDay);
  }

  /**
   * As written: two records of one calendar day stored at different times,
   * such as "2024-01-15 09:30:00" and "2024-01-15 14:05:00", give that day
   * two buckets.
   */
  lemma SplitKeySplitsOneDay(a: Interaction, b: Interaction)
    requires 'T' !in a.recordDate.text && 'T' !in b.recordDate.text
    requires a.recordDate.text != b.recordDate.text
    requires a.recordDate.day == b.recordDate.day
    ensures |TimeSeries([a, b], SplitDateKey)| == 2
  {
    PairImage(a, b, StoredText);
    SplitKeyIsStoredText([a, b]);
  }

  /** Corrected: the same two records share one calendar-day bucket. */
  lemma CalendarDayKeepsOneDay(a: Interaction, b: Interaction)
    requires a.recordDate.text != b.recordDate.text
    requires a.recordDate.day == b.recordDate.day
    ensures |TimeSeries([a, b], CalendarDay)| == 1
  {
    PairImage(a, b, CalendarDay);
    OneBucketPerDay([a, b]);
  }

  /** One entry of the `DailyStatsAccumulator` dictionary. */
  datatype DayAcc = DayAcc(date: string, totalInteractions: nat, uniqueUsers: set<string>,
                           departments: set<string>, systemSections: set<string>)

  /** The entry the reducer creates for a key it has not seen. */
  function EmptyAcc(date: string): DayAcc
  {
    DayAcc(date, 0, {}, {}, {})
  }

  /** The reducer's step for one record of the entry's key. */
  function AddRecord(a: DayAcc, r: Interaction): DayAcc
  {
    DayAcc(a.date, a.totalInteractions + 1, a.uniqueUsers + {r.userUid},
           a.departments + {r.userDepartment}, a.systemSections + {r.systemSection})
  }

  /** The accumulator entry for key k after reducing the records s, one record at a time. */
  function AccOf(s: seq<Interaction>, keyOf: Interaction -> string, k: string): DayAcc
    decreases |s|
  {
    if s == [] then EmptyAcc(k)
    else
      var a := AccOf(s[..|s| - 1], keyOf, k);
      if keyOf(s[|s| - 1]) == k then AddRecord(a, s[|s| - 1]) else a
  }

  function ToBucket(a: DayAcc): DayBucket
  {
    DayBucket(a.date, a.totalInteractions, |a.uniqueUsers|, |a.departments|, |a.systemSections|)
  }

  lemma AccOfSnoc(s: seq<Interaction>, x: Interaction, keyOf: Interaction -> string, k: string)
    ensures AccOf(s + [x], keyOf, k) == if keyOf(x) == k then AddRecord(AccOf(s, keyOf, k), x) else AccOf(s, keyOf, k)
  {
    assert (s + [x])[..|s + [x]| - 1] == s;
  }

  /** The entry a key's records determine: their count and their sets of users, departments and sections. */
  function GroupAcc(k: string, g: seq<Interaction>): DayAcc
  {
    DayAcc(k, |g|, Image(g, UidOf), Image(g, DepartmentOf), Image(g, SectionOf))
  }

  lemma GroupAccSnoc(k: string, g: seq<Interaction>, x: Interaction)
    ensures GroupAcc(k, g + [x]) == AddRecord(GroupAcc(k, g), x)
  {
    ImageSnoc(g, x, UidOf);
    ImageSnoc(g, x, DepartmentOf);
    ImageSnoc(g, x, SectionOf);
  }

  /** What the reducer accumulates for key k is what that key's records determine. */
  lemma {:induction false} AccOfIsGroup(s: seq<Interaction>, keyOf: Interaction -> string, k: string)
    ensures AccOf(s, keyOf, k) == GroupAcc(k, Group(s, keyOf, k))
    decreases |s|
  {
    if s != [] {
      var init, x := s[..|s| - 1], s[|s| - 1];
      assert s == init + [x];
      AccOfIsGroup(init, keyOf, k);
      AccOfSnoc(init, x, keyOf, k);
      GroupSnoc(init, x, keyOf, k);
      if keyOf(x) == k {
        GroupAccSnoc(k, Group(init, keyOf, k), x);
      }
    }
  }

  lemma {:induction false} AccOfAbsent(s: seq<Interaction>, keyOf: Interaction -> string, k: string)
    requires k !in Image(s, keyOf)
    ensures AccOf(s, keyOf, k) == EmptyAcc(k)
    decreases |s|
  {
    if s != [] {
      var init, x := s[..|s| - 1], s[|s| - 1];
      assert s == init + [x];
      ImageSnoc(init, x, keyOf);
      AccOfAbsent(init, keyOf, k);
    }
  }

  /** The key order grows exactly when the record's key has no entry yet. */
  lemma OrderStep(s: seq<Interaction>, r: Interaction, keyOf: Interaction -> string,
                  acc: map<string, DayAcc>, order: seq<string>)
    requires order == DistinctKeys(s, keyOf)
    requires acc.Keys == Image(s, keyOf)
    ensures keyOf(r) in acc ==> order == DistinctKeys(s + [r], keyOf)
    ensures keyOf(r) !in acc ==> order + [keyOf(r)] == DistinctKeys(s + [r], keyOf)
  {
    DistinctKeysAreImage(s, keyOf);
    DistinctKeysSnoc(s, r, keyOf);
  }

  /** Updating the entry of r's key turns the accumulators of s into those of s + [r]. */
  lemma AddRecordStep(s: seq<Interaction>, r: Interaction, keyOf: Interaction -> string, acc1: map<string, DayAcc>)
    requires keyOf(r) in acc1
    requires forall k :: k in acc1 ==> acc1[k] == AccOf(s, keyOf, k)
    ensures forall k :: k in acc1 ==> acc1[keyOf(r) := AddRecord(acc1[keyOf(r)], r)][k] == AccOf(s + [r], keyOf, k)
  {
    forall k | k in acc1
      ensures acc1[keyOf(r) := AddRecord(acc1[keyOf(r)], r)][k] == AccOf(s + [r], keyOf, k)
    {
      AccOfSnoc(s, r, keyOf, k);
    }
  }

  /** `Object.values(acc).map(…)`: the buckets of the keys in insertion order. */
  function BucketsOf(acc: map<string, DayAcc>, order: seq<string>): (series: seq<DayBucket>)
    requires forall k :: k in order ==> k in acc
    ensures |series| == |order|
    ensures forall j :: 0 <= j < |order| ==> series[j] == ToBucket(acc[order[j]])
  {
    seq(|order|, j requires 0 <= j < |order| => ToBucket(acc[order[j]]))
  }

  lemma BucketOfAcc(rs: seq<Interaction>, keyOf: Interaction -> string, k: string)
    ensures ToBucket(AccOf(rs, keyOf, k)) == BucketOf(rs, keyOf, k)
  {
    AccOfIsGroup(rs, keyOf, k);
  }

  lemma ReducedKeys(rs: seq<Interaction>, keyOf: Interaction -> string, acc: map<string, DayAcc>, order: seq<string>)
    requires order == DistinctKeys(rs, keyOf)
    requires acc.Keys == Image(rs, keyOf)
    ensures forall k :: k in order ==> k in acc
  {
    DistinctKeysAreImage(rs, keyOf);
  }

  /** Once every record is reduced, the dictionary's buckets are the time series. */
  lemma BucketsOfReduced(rs: seq<Interaction>, keyOf: Interaction -> string, acc: map<string, DayAcc>, order: seq<string>)
    requires order == DistinctKeys(rs, keyOf)
    requires forall k :: k in order ==> k in acc
    requires forall k :: k in acc ==> acc[k] == AccOf(rs, keyOf, k)
    ensures BucketsOf(acc, order) == TimeSeries(rs, keyOf)
  {
    var series, buckets := TimeSeries(rs, keyOf), BucketsOf(acc, order);
    forall j | 0 <= j < |order|
      ensures buckets[j] == series[j]
    {
      BucketOfAcc(rs, keyOf, order[j]);
    }
  }

  /** The reducer's state: the `DailyStatsAccumulator` dictionary and the insertion order of its keys. */
  datatype Reducer = Reducer(acc: map<string, DayAcc>, order: seq<string>)

  /** The reducer's callback for one record: create the entry of a new key, then update it. */
  function ReduceStep(st: Reducer, r: Interaction, keyOf: Interaction -> string): Reducer
  {
    var date := keyOf(r);
    if date in st.acc then Reducer(st.acc[date := AddRecord(st.acc[date], r)], st.order)
    else Reducer(st.acc[date := AddRecord(EmptyAcc(date), r)], st.order + [date])
  }

  /** `reduce(callback, {})` over the records. */
  function Reduce(s: seq<Interaction>, keyOf: Interaction -> string): Reducer
    decreases |s|
  {
    if s == [] then Reducer(map[], []) else ReduceStep(Reduce(s[..|s| - 1], keyOf), s[|s| - 1], keyOf)
  }

  lemma ReduceSnoc(s: seq<Interaction>, r: Interaction, keyOf: Interaction -> string)
    ensures Reduce(s + [r], keyOf) == ReduceStep(Reduce(s, keyOf), r, keyOf)
  {
    assert (s + [r])[..|s + [r]| - 1] == s;
  }

  /**
   * After the reduce, the keys are the distinct keys in order of first
   * appearance, and each key's entry is that key's accumulator.
   */
  lemma {:induction false} ReduceMeaning(s: seq<Interaction>, keyOf: Interaction -> string)
    ensures Reduce(s, keyOf).order == DistinctKeys(s, keyOf)
    ensures Reduce(s, keyOf).acc.Keys == Image(s, keyOf)
    ensures forall k :: k in Reduce(s, keyOf).acc ==> Reduce(s, keyOf).acc[k] == AccOf(s, keyOf, k)
    decreases |s|
  {
    if s != [] {
      var init, x := s[..|s| - 1], s[|s| - 1];
      assert s == init + [x];
      ReduceMeaning(init, keyOf);
      var st := Reduce(init, keyOf);
      ReduceStepOrder(init, x, keyOf, st);
      ReduceStepKeys(init, x, keyOf, st);
      ReduceStepValues(init, x, keyOf, st);
    }
  }

  /** One reducer step extends the key order exactly as the distinct keys grow. */
  lemma ReduceStepOrder(init: seq<Interaction>, x: Interaction, keyOf: Interaction -> string, st: Reducer)
    requires st.order == DistinctKeys(init, keyOf)
    requires st.acc.Keys == Image(init, keyOf)
    ensures ReduceStep(st, x, keyOf).order == DistinctKeys(init + [x], keyOf)
  {
    OrderStep(init, x, keyOf, st.acc, st.order);
  }

  /** One reducer step adds the record's key to the dictionary. */
  lemma ReduceStepKeys(init: seq<Interaction>, x: Interaction, keyOf: Interaction -> string, st: Reducer)
    requires st.acc.Keys == Image(init, keyOf)
    ensures ReduceStep(st, x, keyOf).acc.Keys == Image(init + [x], keyOf)
  {
    ImageSnoc(init, x, keyOf);
  }

  /** One reducer step turns every entry into the accumulator of the records seen so far. */
  lemma ReduceStepValues(init: seq<Interaction>, x: Interaction, keyOf: Interaction -> string, st: Reducer)
    requires st.acc.Keys == Image(init, keyOf)
    requires forall k :: k in st.acc ==> st.acc[k] == AccOf(init, keyOf, k)
    ensures forall k :: k in ReduceStep(st, x, keyOf).acc ==> ReduceStep(st, x, keyOf).acc[k] == AccOf(init + [x], keyOf, k)
  {
    if keyOf(x) in st.acc {
      AddRecordStep(init, x, keyOf, st.acc);
    } else {
      NewKeyStep(init, x, keyOf, st.acc);
      AddRecordStep(init, x, keyOf, st.acc[keyOf(x) := EmptyAcc(keyOf(x))]);
    }
  }

  /** A new key's entry starts empty: the accumulators of `init` extended by it. */
  lemma NewKeyStep(init: seq<Interaction>, x: Interaction, keyOf: Interaction -> string, acc: map<string, DayAcc>)
    requires acc.Keys == Image(init, keyOf)
    requires keyOf(x) !in acc
    requires forall k :: k in acc ==> acc[k] == AccOf(init, keyOf, k)
    ensures forall k :: k in acc[keyOf(x) := EmptyAcc(keyOf(x))] ==> acc[keyOf(x) := EmptyAcc(keyOf(x))][k] == AccOf(init, keyOf, k)
  {
    AccOfAbsent(init, keyOf, keyOf(x));
  }

  /**
   * The `reduce` over the records into a dictionary of per-key counters and
   * sets, then `Object.values(…).map(…)` into buckets, in key insertion order.
   */
  method BucketByDay(rs: seq<Interaction>, keyOf: Interaction -> string) returns (series: seq<DayBucket>)
    ensures series == TimeSeries(rs, keyOf)
  {
    var acc: map<string, DayAcc> := map[];
    var order: seq<string> := [];
    for i := 0 to |rs|
      invariant Reducer(acc, order) == Reduce(rs[..i], keyOf)
    {
      var r := rs[i];
      var date := keyOf(r);
      TakeSnoc(rs, i);
      ReduceSnoc(rs[..i], r, keyOf);
      if date !in acc {
        acc := acc[date := EmptyAcc(date)];
        order := order + [date];
      }
      acc := acc[date := AddRecord(acc[date], r)];
    }
    assert rs[..|rs|] == rs;
    ReduceMeaning(rs, keyOf);
    ReducedKeys(rs, keyOf, acc, order);
    BucketsOfReduced(rs, keyOf, acc, order);
    series := BucketsOf(acc, order);
  }

  /**
   * The `POST` handler for a given bucket key: both bounds are required;
   * otherwise the records of the range, their count, and their time series,
   * one bucket per distinct key.
   */
  method RangeReportBy(log: seq<Interaction>, req: RangeRequest, keyOf: Interaction -> string) returns (resp: RangeResponse)
    ensures resp.RangeBadRequest? <==> !Truthy(req.startDate) || !Truthy(req.endDate)
    ensures resp.RangeReport? ==>
      && resp.startDate == req.startDate.value && resp.endDate == req.endDate.value
      && resp.rawInteractions == GetInteractionsByDateRange(log, resp.startDate, resp.endDate)
      && resp.totalInteractions == |resp.rawInteractions|
      && resp.timeSeries == TimeSeries(resp.rawInteractions, keyOf)
      && |resp.timeSeries| == |Image(resp.rawInteractions, keyOf)|
      && SumBy(resp.timeSeries, BucketTotal) == resp.totalInteractions
  {
    if !Truthy(req.startDate) || !Truthy(req.endDate) {
      return RangeBadRequest;
    }
    var startDate, endDate := req.startDate.value, req.endDate.value;
    var interactions := GetInteractionsByDateRange(log, startDate, endDate);
    var series := BucketByDay(interactions, keyOf);
    TimeSeriesTotal(interactions, keyOf);
    DistinctKeysCount(interactions, keyOf);
    resp := RangeReport(startDate, endDate, |interactions|, series, interactions);
  }

  /**
   * The `POST` handler as written: the time series is keyed by `split('T')[0]`,
   * which on stored "YYYY-MM-DD HH:MM:SS" texts is one bucket per distinct
   * timestamp (`SplitKeyIsStoredText`, `SplitKeySplitsOneDay`).
   */
  method RangeReportOf(log: seq<Interaction>, req: RangeRequest) returns (resp: RangeResponse)
    ensures resp.RangeBadRequest? <==> !Truthy(req.startDate) || !Truthy(req.endDate)
    ensures resp.RangeReport? ==>
      && resp.startDate == req.startDate.value && resp.endDate == req.endDate.value
      && resp.rawInteractions == GetInteractionsByDateRange(log, resp.startDate, resp.endDate)
      && resp.totalInteractions == |resp.rawInteractions|
      && resp.timeSeries == TimeSeries(resp.rawInteractions, SplitDateKey)
      && |resp.timeSeries| == |Image(resp.rawInteractions, SplitDateKey)|
      && SumBy(resp.timeSeries, BucketTotal) == resp.totalInteractions
  {
    resp := RangeReportBy(log, req, SplitDateKey);
  }

  /**
   * The `POST` handler as intended: one bucket per calendar day of the range,
   * each dated with that day.
   */
  method RangeReportByDay(log: seq<Interaction>, req: RangeRequest) returns (resp: RangeResponse)
    ensures resp.RangeBadRequest? <==> !Truthy(req.startDate) || !Truthy(req.endDate)
    ensures resp.RangeReport? ==>
      && resp.startDate == req.startDate.value && resp.endDate == req.endDate.value
      && resp.rawInteractions == GetInteractionsByDateRange(log, resp.startDate, resp.endDate)
      && resp.totalInteractions == |resp.rawInteractions|
      && resp.timeSeries == TimeSeries(resp.rawInteractions, CalendarDay)
      && |resp.timeSeries| == |Image(resp.rawInteractions, CalendarDay)|
      && (forall i :: 0 <= i < |resp.timeSeries| ==> resp.timeSeries[i].date in Image(resp.rawInteractions, CalendarDay))
      && SumBy(resp.timeSeries, BucketTotal) == resp.totalInteractions
  {
    resp := RangeReportBy(log, req, CalendarDay);
    if resp.RangeReport? {
      OneBucketPerDay(resp.rawInteractions);
    }
  }
}
