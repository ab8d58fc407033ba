/**
 * The result shaping of the dashboard endpoints of backend.py: what each
 * endpoint does with the rows its SQL query returns. A row is taken as the
 * driver hands it over, with `None` where the database gave NULL.
 */
module Reports {
  import opened Wrappers
  import opened Calendar

  /** A pass count and a fail count. */
  datatype Counts = Counts(pass: int, fail: int)

  function Plus(a: Counts, b: Counts): Counts {
    Counts(a.pass + b.pass, a.fail + b.fail)
  }

  /** `int(x or 0)`: NULL reads as 0. */
  function OrZero(x: Option<int>): int {
    if x.Some? then x.value else 0
  }

  /** A device filter is applied when the query parameter is present and non-empty. */
  predicate Given(device: Option<string>) {
    device.Some? && device.value != []
  }

  /** The SQL fragment and parameters of `make_device_filter_clause` (backend.py:142-145). */
  function DeviceFilter(device: Option<string>): (string, seq<string>) {
    if Given(device) then (FilterColumn + ['?', ' '], [device.value]) else ("", [])
  }

  const FilterColumn: string := " AND device_id = "

  /** The number of `?` placeholders in a SQL fragment. */
  function Placeholders(s: string): nat {
    multiset(s)['?']
  }

  /**
   * The filter binds exactly as many parameters as it has placeholders: one,
   * the device itself, when a device is given, and none otherwise.
   */
  lemma DeviceFilterShape(device: Option<string>)
    ensures var (clause, params) := DeviceFilter(device);
            && Placeholders(clause) == |params|
            && (Given(device) ==> params == [device.value])
            && (!Given(device) ==> clause == [] && params == [])
  {
    if Given(device) {
      FilterPlaceholder();
    }
  }

  /** The clause of a given device holds one placeholder. */
  lemma FilterPlaceholder()
    ensures Placeholders(FilterColumn + ['?', ' ']) == 1
  {
    var c := FilterColumn;
    assert forall i :: 0 <= i < |c| ==> c[i] != '?';
    assert multiset(c)['?'] == 0;
    assert multiset(c + ['?', ' ']) == multiset(c) + multiset(['?', ' ']);
    assert multiset(['?', ' '])['?'] == 1;
  }

  /** An HTTP error response. */
  datatype HttpError = BadRequest(detail: string)

  /** The guard of `update_device_status` (backend.py:199-202), checked before any database work. */
  function CheckStatus(status: int): Result<int, HttpError> {
    if status != 0 && status != 1 then Failure(BadRequest("status must be 0 or 1"))
    else Success(status)
  }

  /** A status is accepted exactly when it is 0 or 1, and is then passed on unchanged. */
  lemma CheckStatusAccepts(status: int)
    ensures CheckStatus(status).Success? <==> status == 0 || status == 1
    ensures CheckStatus(status).Success? ==> CheckStatus(status).value == status
    ensures CheckStatus(status).Failure? ==> CheckStatus(status).error.detail == "status must be 0 or 1"
  {
  }

  /**
   * The last row whose key is `k`, as a dict comprehension keeps it when
   * several rows share a key: `{key(r): ... for r in rows}`.
   */
  function Latest<R, K(==)>(rows: seq<R>, key: R -> K, k: K): (r: Option<R>)
    ensures r.Some? ==> r.value in rows && key(r.value) == k
    ensures r.None? ==> forall j :: 0 <= j < |rows| ==> key(rows[j]) != k
    decreases |rows|
  {
    if rows == [] then None
    else if key(rows[|rows| - 1]) == k then Some(rows[|rows| - 1])
    else Latest(rows[..|rows| - 1], key, k)
  }

  /** The row at `i` is the one kept for its key when no later row has that key. */
  lemma {:induction false} LatestFound<R, K>(rows: seq<R>, key: R -> K, i: nat)
    requires i < |rows|
    requires forall j :: i < j < |rows| ==> key(rows[j]) != key(rows[i])
    ensures Latest(rows, key, key(rows[i])) == Some(rows[i])
    decreases |rows|
  {
    if i < |rows| - 1 {
      var init := rows[..|rows| - 1];
      assert forall j :: i < j < |init| ==> init[j] == rows[j];
      LatestFound(init, key, i);
    }
  }

  /** Adding one row: it is kept for its key, and other keys are unaffected. */
  lemma LatestSnoc<R, K>(rows: seq<R>, r: R, key: R -> K, k: K)
    ensures Latest(rows + [r], key, k) == if key(r) == k then Some(r) else Latest(rows, key, k)
  {
    assert (rows + [r])[..|rows|] == rows;
  }

  // ---------------------------------------------------------------- data_day

  /** A row of the hourly query: `hr`, `pass_sum`, `fail_sum`. */
  datatype HourRow = HourRow(hr: Option<int>, pass: Option<int>, fail: Option<int>)

  /** `int(r[0]) if r[0] is not None else 0` */
  function HourOf(r: HourRow): int {
    if r.hr.Some? then r.hr.value else 0
  }

  function HourCounts(r: HourRow): Counts {
    Counts(OrZero(r.pass), OrZero(r.fail))
  }

  /** What hour `h` shows: the counts of the last row for that hour, or zeros. */
  function HourValue(rows: seq<HourRow>, h: int): Counts {
    match Latest(rows, HourOf, h)
    case Some(r) => HourCounts(r)
    case None => Counts(0, 0)
  }

  datatype DayReport = DayReport(hours: seq<int>, pass: seq<int>, fail: seq<int>)

  /**
   * The bucketing of `data_day` (backend.py:255-262): 24 zeroed buckets; each
   * row with an hour in 0..23 overwrites its bucket.
   */
  method DataDay(rows: seq<HourRow>) returns (r: DayReport)
    ensures r.hours == seq(24, h => h)
    ensures |r.pass| == 24 && |r.fail| == 24
    ensures forall h :: 0 <= h < 24 ==> Counts(r.pass[h], r.fail[h]) == HourValue(rows, h)
  {
    var passArr := new int[24](_ => 0);
    var failArr := new int[24](_ => 0);
    for i := 0 to |rows|
      invariant forall h :: 0 <= h < 24 ==> Counts(passArr[h], failArr[h]) == HourValue(rows[..i], h)
    {
      var hr := HourOf(rows[i]);
      if 0 <= hr < 24 {
        passArr[hr] := OrZero(rows[i].pass);
        failArr[hr] := OrZero(rows[i].fail);
      }
      assert rows[..i + 1] == rows[..i] + [rows[i]];
      forall h | 0 <= h < 24
        ensures HourValue(rows[..i + 1], h) == if HourOf(rows[i]) == h then HourCounts(rows[i]) else HourValue(rows[..i], h)
      {
        LatestSnoc(rows[..i], rows[i], HourOf, h);
      }
    }
    assert rows[..|rows|] == rows;
    r := DayReport(seq(24, h => h), passArr[..], failArr[..]);
  }

  /** An hour no row names shows zeros. */
  lemma HourAbsent(rows: seq<HourRow>, h: int)
    requires forall j :: 0 <= j < |rows| ==> HourOf(rows[j]) != h
    ensures HourValue(rows, h) == Counts(0, 0)
  {
  }

  /** The last row for an hour decides it; a NULL hour counts as hour 0. */
  lemma HourFound(rows: seq<HourRow>, i: nat)
    requires i < |rows|
    requires forall j :: i < j < |rows| ==> HourOf(rows[j]) != HourOf(rows[i])
    ensures HourValue(rows, HourOf(rows[i])) == HourCounts(rows[i])
    ensures rows[i].hr.None? ==> HourValue(rows, 0) == HourCounts(rows[i])
  {
    LatestFound(rows, HourOf, i);
  }

  // ---------------------------------------------------------------- data_week

  /** Why an endpoint raised instead of answering. */
  datatype ReportError =
    | IllegalMonth   // `calendar.monthrange` with a month outside 1..12
    | InvalidDate    // `datetime.date` with a year or day out of range
    | NullMonth      // `int(None)` on a NULL month
    | DateOverflow   // `date + timedelta(days=1)` past 9999-12-31

  /** `(week - 1) * 7 + 1` */
  function WeekStart(week: int): int {
    (week - 1) * 7 + 1
  }

  /** `min(start_day + 6, days_in_month)` */
  function WeekEnd(week: int, daysInMonth: int): int {
    if WeekStart(week) + 6 < daysInMonth then WeekStart(week) + 6 else daysInMonth
  }

  /** The calendar weeks of a month: `(days_in_month + 6) // 7`. */
  function WeeksIn(daysInMonth: int): int {
    (daysInMonth + 6) / 7
  }

  /**
   * The first and last day of the requested week, or the error that
   * `monthrange` or `datetime.date` raises (backend.py:271-276).
   */
  function WeekRange(year: int, month: int, week: int): Result<(int, int), ReportError> {
    if !ValidMonth(month) then Failure(IllegalMonth)
    else
      var dim := DaysInMonth(year, month);
      if !ValidDate(year, month, WeekStart(week)) then Failure(InvalidDate)
      else Success((WeekStart(week), WeekEnd(week, dim)))
  }

  /** `datetime.date.max`: the one date that has no next day. */
  predicate IsLastDate(year: int, month: int, day: int) {
    year == 9999 && month == 12 && day == 31
  }

  /**
   * What `data_week` answers: the week's range, or the error raised while
   * building it (backend.py:271-275) or by the day loop's last step
   * (backend.py:304), which moves past the week's end date and so fails
   * when that date is 9999-12-31.
   */
  function WeekAnswer(year: int, month: int, week: int): Result<(int, int), ReportError> {
    match WeekRange(year, month, week)
    case Failure(e) => Failure(e)
    case Success((s, e)) => if IsLastDate(year, month, e) then Failure(DateOverflow) else Success((s, e))
  }

  /**
   * The range of a week exists exactly when the year is one `datetime.date`
   * accepts, the month is valid and the week is one of the month's calendar
   * weeks; it then spans one to seven days, all in the month. The week is
   * answered in all those cases but one: the last week of 9999.
   */
  lemma WeekRangeValid(year: int, month: int, week: int)
    ensures WeekRange(year, month, week).Success? <==>
              1 <= year <= 9999 && ValidMonth(month) && 1 <= week <= WeeksIn(DaysInMonth(year, month))
    ensures WeekRange(year, month, week).Success? ==>
              var (s, e) := WeekRange(year, month, week).value;
              1 <= s <= e <= DaysInMonth(year, month) && e - s < 7
    ensures WeekAnswer(year, month, week).Success? <==>
              WeekRange(year, month, week).Success? && !(year == 9999 && month == 12 && week == 5)
    ensures WeekAnswer(year, month, week).Success? ==> WeekAnswer(year, month, week) == WeekRange(year, month, week)
  {
    if year == 9999 && month == 12 {
      assert DaysInMonth(year, month) == 31;
      assert WeeksIn(31) == 5;
    }
  }

  /** December 9999, week 5: the range 29..31 exists, but stepping past 31 raises. */
  lemma LastWeekOf9999()
    ensures WeekRange(9999, 12, 5) == Success((29, 31))
    ensures WeekAnswer(9999, 12, 5) == Failure(DateOverflow)
  {
    assert DaysInMonth(9999, 12) == 31;
  }

  /** A row of the weekly query: the date text and the two sums. */
  datatype DateRow = DateRow(date: string, pass: Option<int>, fail: Option<int>)

  function DateOf(r: DateRow): string {
    r.date
  }

  /** What a date shows: the counts of the last row for that date, or zeros. */
  function DateValue(rows: seq<DateRow>, date: string): Counts {
    match Latest(rows, DateOf, date)
    case Some(r) => Counts(OrZero(r.pass), OrZero(r.fail))
    case None => Counts(0, 0)
  }

  datatype WeekReport = WeekReport(range: string, labels: seq<string>, pass: seq<int>, fail: seq<int>)

  /**
   * `data_week` (backend.py:271-305): one label per day of the week, in
   * order, each with its counts or zeros. The step past the last day raises
   * when that day is 9999-12-31, and the request fails.
   */
  method DataWeek(year: int, month: int, week: int, rows: seq<DateRow>) returns (r: Result<WeekReport, ReportError>)
    ensures WeekAnswer(year, month, week).Failure? ==> r == Failure(WeekAnswer(year, month, week).error)
    ensures WeekAnswer(year, month, week).Success? ==>
              var (s, e) := WeekAnswer(year, month, week).value;
              && r.Success?
              && r.value.range == IsoDate(year, month, s) + " to " + IsoDate(year, month, e)
              && |r.value.labels| == e - s + 1 && |r.value.pass| == e - s + 1 && |r.value.fail| == e - s + 1
              && (forall i :: 0 <= i < |r.value.labels| ==>
                    && r.value.labels[i] == IsoDate(year, month, s + i)
                    && Counts(r.value.pass[i], r.value.fail[i]) == DateValue(rows, r.value.labels[i]))
  {
    var range := WeekRange(year, month, week);
    if range.Failure? {
      return Failure(range.error);
    }
    var (start, end) := range.value;
    var labels, passList, failList := [], [], [];
    var day := start;
    while day <= end
      invariant start <= day <= end + 1
      invariant day > start ==> !IsLastDate(year, month, day - 1)
      invariant |labels| == day - start && |passList| == day - start && |failList| == day - start
      invariant forall i :: 0 <= i < |labels| ==>
                  && labels[i] == IsoDate(year, month, start + i)
                  && Counts(passList[i], failList[i]) == DateValue(rows, labels[i])
    {
      var ds := IsoDate(year, month, day);
      labels := labels + [ds];
      var c := DateValue(rows, ds);
      passList := passList + [c.pass];
      failList := failList + [c.fail];
      if IsLastDate(year, month, day) {
        return Failure(DateOverflow);
      }
      day := day + 1;
    }
    r := Success(WeekReport(IsoDate(year, month, start) + " to " + IsoDate(year, month, end), labels, passList, failList));
  }

  /** The labels of a week are distinct dates. */
  lemma WeekLabelsDistinct(year: int, month: int, week: int, i: nat, j: nat)
    requires WeekRange(year, month, week).Success?
    requires var (s, e) := WeekRange(year, month, week).value; i < j <= e - s
    ensures var s := WeekRange(year, month, week).value.0;
            IsoDate(year, month, s + i) != IsoDate(year, month, s + j)
  {
    var (s, e) := WeekRange(year, month, week).value;
    IsoDateInjective(year, month, s + i, year, month, s + j);
  }

  // ---------------------------------------------------------------- data_month

  /** A row of the monthly query: the day of the month and the two sums. */
  datatype DayRow = DayRow(day: Option<int>, pass: Option<int>, fail: Option<int>)

  /** `int(r[0] or 1)`: a NULL or zero day reads as day 1. */
  function DayOf(r: DayRow): int {
    if r.day.Some? && r.day.value != 0 then r.day.value else 1
  }

  /** `(day - 1) // 7 + 1`; Dafny's `/` floors like Python's `//` for a positive divisor. */
  function WeekOf(day: int): int {
    (day - 1) / 7 + 1
  }

  function DayCounts(r: DayRow): Counts {
    Counts(OrZero(r.pass), OrZero(r.fail))
  }

  /** The sums of the rows that fall in week `w`. */
  function WeekTotal(rows: seq<DayRow>, w: int): Counts
    decreases |rows|
  {
    if rows == [] then Counts(0, 0)
    else
      var last := rows[|rows| - 1];
      var before := WeekTotal(rows[..|rows| - 1], w);
      if WeekOf(DayOf(last)) == w then Plus(before, DayCounts(last)) else before
  }

  /**
   * The accumulation loop of `data_month` (backend.py:331-338): a bucket per
   * week that occurs, holding the sums of its rows.
   */
  method WeekBuckets(rows: seq<DayRow>) returns (weeks: map<int, Counts>)
    ensures forall w :: w in weeks ==> weeks[w] == WeekTotal(rows, w)
    ensures forall w :: w in weeks <==> exists j :: 0 <= j < |rows| && WeekOf(DayOf(rows[j])) == w
  {
    weeks := map[];
    for i := 0 to |rows|
      invariant forall w :: w in weeks ==> weeks[w] == WeekTotal(rows[..i], w)
      invariant forall w :: w in weeks <==> exists j :: 0 <= j < i && WeekOf(DayOf(rows[j])) == w
    {
      assert rows[..i + 1][..i] == rows[..i];
      var weekIdx := WeekOf(DayOf(rows[i]));
      if weekIdx !in weeks {
        weeks := weeks[weekIdx := Counts(0, 0)];
        WeekTotalAbsent(rows[..i], weekIdx);
      }
      weeks := weeks[weekIdx := Plus(weeks[weekIdx], DayCounts(rows[i]))];
    }
    assert rows[..|rows|] == rows;
  }

  /** The weeks missing from the buckets are the weeks with zero sums. */
  lemma AbsentWeeksZero(rows: seq<DayRow>, weeks: map<int, Counts>)
    requires forall w :: w in weeks <==> exists j :: 0 <= j < |rows| && WeekOf(DayOf(rows[j])) == w
    ensures forall w :: w !in weeks ==> WeekTotal(rows, w) == Counts(0, 0)
  {
    forall w | w !in weeks
      ensures WeekTotal(rows, w) == Counts(0, 0)
    {
      WeekTotalAbsent(rows, w);
    }
  }

  /** A week no row falls in has zero sums. */
  lemma {:induction false} WeekTotalAbsent(rows: seq<DayRow>, w: int)
    requires forall j :: 0 <= j < |rows| ==> WeekOf(DayOf(rows[j])) != w
    ensures WeekTotal(rows, w) == Counts(0, 0)
    decreases |rows|
  {
    if rows != [] {
      WeekTotalAbsent(rows[..|rows| - 1], w);
    }
  }

  datatype MonthReport = MonthReport(month: string, labels: seq<string>, pass: seq<int>, fail: seq<int>)

  /** `f"Tuần {w}"` */
  function WeekLabel(w: nat): string {
    "Tuần " + Digits(w)
  }

  /**
   * `data_month` (backend.py:322-344): one label per calendar week of the
   * month and the week sums, zero for a week without rows.
   */
  method DataMonth(year: int, month: int, rows: seq<DayRow>) returns (r: Result<MonthReport, ReportError>)
    ensures !ValidMonth(month) ==> r == Failure(IllegalMonth)
    ensures ValidMonth(month) ==>
              var n := WeeksIn(DaysInMonth(year, month));
              && r.Success?
              && r.value.month == YearText(year) + ['-'] + ZeroPad(month, 2)
              && |r.value.labels| == n && |r.value.pass| == n && |r.value.fail| == n
              && (forall i :: 0 <= i < n ==>
                    && r.value.labels[i] == WeekLabel(i + 1)
                    && Counts(r.value.pass[i], r.value.fail[i]) == WeekTotal(rows, i + 1))
  {
    if !ValidMonth(month) {
      return Failure(IllegalMonth);
    }
    var dim := DaysInMonth(year, month);
    var weeks := WeekBuckets(rows);
    var maxWeek := WeeksIn(dim);
    AbsentWeeksZero(rows, weeks);
    var labels := seq(maxWeek, i requires 0 <= i => WeekLabel(i + 1));
    var passList := seq(maxWeek, i => if i + 1 in weeks then weeks[i + 1].pass else 0);
    var failList := seq(maxWeek, i => if i + 1 in weeks then weeks[i + 1].fail else 0);
    forall i | 0 <= i < maxWeek
      ensures labels[i] == WeekLabel(i + 1)
      ensures Counts(passList[i], failList[i]) == WeekTotal(rows, i + 1)
    {
      if i + 1 in weeks {
        assert Counts(passList[i], failList[i]) == weeks[i + 1];
      } else {
        assert Counts(passList[i], failList[i]) == Counts(0, 0);
      }
    }
    r := Success(MonthReport(YearText(year) + ['-'] + ZeroPad(month, 2), labels, passList, failList));
  }

  /** Every day of a month falls in one of the month's weeks. */
  lemma DayInSomeWeek(daysInMonth: int, day: int)
    requires 1 <= day <= daysInMonth
    ensures 1 <= WeekOf(day) <= WeeksIn(daysInMonth)
  {
  }

  /**
   * The week `data_month` files a day under is the week `data_week` lists it
   * in: day `d` of the month is in week `w` exactly when it lies in
   * `WeekStart(w)..WeekEnd(w)`.
   */
  lemma WeekOfMatchesWeekRange(daysInMonth: int, day: int, w: int)
    requires 1 <= day <= daysInMonth
    ensures WeekOf(day) == w <==> WeekStart(w) <= day <= WeekEnd(w, daysInMonth)
  {
  }

  /** The sums of weeks `1..n`. */
  function WeeksTotal(rows: seq<DayRow>, n: int): Counts
    decreases n
  {
    if n <= 0 then Counts(0, 0) else Plus(WeeksTotal(rows, n - 1), WeekTotal(rows, n))
  }

  /** The sums of all rows. */
  function RowsTotal(rows: seq<DayRow>): Counts
    decreases |rows|
  {
    if rows == [] then Counts(0, 0) else Plus(RowsTotal(rows[..|rows| - 1]), DayCounts(rows[|rows| - 1]))
  }

  /** Adding one row to the rows adds its counts to its own week among `1..n`. */
  lemma {:induction false} WeeksTotalSnoc(rows: seq<DayRow>, r: DayRow, n: int)
    ensures WeeksTotal(rows + [r], n)
            == if 1 <= WeekOf(DayOf(r)) <= n then Plus(WeeksTotal(rows, n), DayCounts(r)) else WeeksTotal(rows, n)
    decreases n
  {
    assert (rows + [r])[..|rows|] == rows;
    if n > 0 {
      WeeksTotalSnoc(rows, r, n - 1);
    }
  }

  /**
   * When every row's day lies in the month, the weekly sums of `data_month`
   * add up to the sums of all rows: nothing is lost or counted twice.
   */
  lemma {:induction false} MonthTotalsPreserved(rows: seq<DayRow>, daysInMonth: int)
    requires forall j :: 0 <= j < |rows| ==> 1 <= DayOf(rows[j]) <= daysInMonth
    ensures WeeksTotal(rows, WeeksIn(daysInMonth)) == RowsTotal(rows)
    decreases |rows|
  {
    var n := WeeksIn(daysInMonth);
    if rows == [] {
      WeeksTotalEmpty(rows, n);
    } else {
      var init := rows[..|rows| - 1];
      var last := rows[|rows| - 1];
      assert rows == init + [last];
      MonthTotalsPreserved(init, daysInMonth);
      DayInSomeWeek(daysInMonth, DayOf(last));
      WeeksTotalSnoc(init, last, n);
    }
  }

  lemma {:induction false} WeeksTotalEmpty(rows: seq<DayRow>, n: int)
    requires |rows| == 0
    ensures WeeksTotal(rows, n) == Counts(0, 0)
    decreases n
  {
    if n > 0 {
      WeeksTotalEmpty(rows, n - 1);
    }
  }

  // ---------------------------------------------------------------- data_year

  /** A row of the yearly query: the month and the two sums. */
  datatype MonthRow = MonthRow(month: Option<int>, pass: Option<int>, fail: Option<int>)

  /** `int(r[0])`, read only when no month is NULL. */
  function MonthOf(r: MonthRow): int {
    if r.month.Some? then r.month.value else 0
  }

  /** What month `m` shows: the counts of the last row for that month, or zeros. */
  function MonthValue(rows: seq<MonthRow>, m: int): Counts {
    match Latest(rows, MonthOf, m)
    case Some(r) => Counts(OrZero(r.pass), OrZero(r.fail))
    case None => Counts(0, 0)
  }

  datatype YearReport = YearReport(year: int, labels: seq<string>, pass: seq<int>, fail: seq<int>)

  /** `f"Tháng {m}"` */
  function MonthLabel(m: nat): string {
    "Tháng " + Digits(m)
  }

  /** `data_year` (backend.py:351-373): twelve labels and the month sums. */
  function DataYear(year: int, rows: seq<MonthRow>): (r: Result<YearReport, ReportError>)
    ensures r.Failure? <==> exists j :: 0 <= j < |rows| && rows[j].month.None?
    ensures r.Success? ==> |r.value.labels| == 12 && |r.value.pass| == 12 && |r.value.fail| == 12
  {
    if exists j :: 0 <= j < |rows| && rows[j].month.None? then Failure(NullMonth)
    else
      Success(YearReport(
        year,
        seq(12, i requires 0 <= i => MonthLabel(i + 1)),
        seq(12, i => MonthValue(rows, i + 1).pass),
        seq(12, i => MonthValue(rows, i + 1).fail)))
  }

  /** Month `m` shows the last row for `m`; a month no row names shows zeros. */
  lemma YearEntry(year: int, rows: seq<MonthRow>, i: nat)
    requires DataYear(year, rows).Success? && i < |rows|
    requires 1 <= MonthOf(rows[i]) <= 12
    requires forall j :: i < j < |rows| ==> MonthOf(rows[j]) != MonthOf(rows[i])
    ensures var y := DataYear(year, rows).value;
            var m := MonthOf(rows[i]);
            y.pass[m - 1] == OrZero(rows[i].pass) && y.fail[m - 1] == OrZero(rows[i].fail)
  {
    LatestFound(rows, MonthOf, i);
  }

  lemma YearEntryAbsent(year: int, rows: seq<MonthRow>, m: int)
    requires DataYear(year, rows).Success? && 1 <= m <= 12
    requires forall j :: 0 <= j < |rows| ==> MonthOf(rows[j]) != m
    ensures DataYear(year, rows).value.pass[m - 1] == 0 && DataYear(year, rows).value.fail[m - 1] == 0
  {
  }
}
