/** The text part of the monthly report: the month it covers, the half-open
    date window of that month, and the total, healthy and unhealthy spending
    of the expenses dated inside it. */
module Report {

  import opened Tables

  /** The month and year the report covers: the ones asked for, or today's
      when either of them is missing. */
  datatype Period = Period(month: int, year: int)

  function ReportPeriod(month: Option<int>, year: Option<int>, today: Date): (p: Period)
    ensures month.Some? && year.Some? ==> p == Period(month.value, year.value)
    ensures month.None? || year.None? ==> p == Period(today.month, today.year)
  {
    if month.None? || year.None? then Period(today.month, today.year)
    else Period(month.value, year.value)
  }

  /** The first day of the month. */
  function StartDate(p: Period): Date {
    Date(p.year, p.month, 1)
  }

  /** The first day of the following month; December rolls over to January. */
  function EndDate(p: Period): Date {
    if p.month == 12 then Date(p.year + 1, 1, 1) else Date(p.year, p.month + 1, 1)
  }

  /** The query's filter: on or after the start and strictly before the end. */
  predicate InWindow(d: Date, p: Period) {
    DateAtOrAfter(d, StartDate(p)) && DateBefore(d, EndDate(p))
  }

  predicate ValidDate(d: Date) {
    1 <= d.month <= 12 && 1 <= d.day
  }

  /** For a real month, the half-open window holds exactly that month's dates. */
  lemma WindowIsMonth(d: Date, p: Period)
    requires 1 <= p.month <= 12 && ValidDate(d)
    ensures InWindow(d, p) <==> d.year == p.year && d.month == p.month
  {
  }

  /** The rows the query returns, in table order. */
  function RowsIn(rows: seq<Expense>, p: Period): (r: seq<Expense>)
    ensures |r| <= |rows|
    ensures forall e :: e in r <==> e in rows && InWindow(e.date, p)
  {
    if rows == [] then []
    else
      var rest := RowsIn(rows[1..], p);
      assert forall e :: e in rows <==> e == rows[0] || e in rows[1..];
      if InWindow(rows[0].date, p) then [rows[0]] + rest else rest
  }

  /** `is_healthy is True` */
  predicate IsHealthy(e: Expense) {
    e.isHealthy.Some? && e.isHealthy.value
  }

  /** `is_healthy is False` */
  predicate IsUnhealthy(e: Expense) {
    e.isHealthy.Some? && !e.isHealthy.value
  }

  /** `sum(amount for r in rows)` */
  function Total(rows: seq<Expense>): real {
    if rows == [] then 0.0 else rows[0].amount + Total(rows[1..])
  }

  /** The amounts of the rows whose flag is True. */
  function HealthySum(rows: seq<Expense>): real {
    if rows == [] then 0.0
    else (if IsHealthy(rows[0]) then rows[0].amount else 0.0) + HealthySum(rows[1..])
  }

  /** The amounts of the rows whose flag is False. */
  function UnhealthySum(rows: seq<Expense>): real {
    if rows == [] then 0.0
    else (if IsUnhealthy(rows[0]) then rows[0].amount else 0.0) + UnhealthySum(rows[1..])
  }

  /** The amounts of the rows whose flag is NULL, which neither sum counts. */
  function UnflaggedSum(rows: seq<Expense>): real {
    if rows == [] then 0.0
    else (if rows[0].isHealthy.None? then rows[0].amount else 0.0) + UnflaggedSum(rows[1..])
  }

  predicate NonNegative(rows: seq<Expense>) {
    forall i :: 0 <= i < |rows| ==> 0.0 <= rows[i].amount
  }

  predicate AllFlagged(rows: seq<Expense>) {
    forall i :: 0 <= i < |rows| ==> rows[i].isHealthy.Some?
  }

  /** Every row counts in exactly one of the three flag sums. */
  lemma {:induction false} SumsPartition(rows: seq<Expense>)
    ensures Total(rows) == HealthySum(rows) + UnhealthySum(rows) + UnflaggedSum(rows)
  {
    if rows != [] {
      SumsPartition(rows[1..]);
    }
  }

  /** Without NULL flags nothing goes uncounted. */
  lemma {:induction false} FlaggedLeavesNothing(rows: seq<Expense>)
    requires AllFlagged(rows)
    ensures UnflaggedSum(rows) == 0.0
  {
    if rows != [] {
      FlaggedLeavesNothing(rows[1..]);
    }
  }

  /** With non-negative amounts every sum is non-negative. */
  lemma {:induction false} SumsNonNegative(rows: seq<Expense>)
    requires NonNegative(rows)
    ensures 0.0 <= HealthySum(rows) && 0.0 <= UnhealthySum(rows) && 0.0 <= UnflaggedSum(rows)
    ensures 0.0 <= Total(rows)
  {
    if rows != [] {
      SumsNonNegative(rows[1..]);
    }
    SumsPartition(rows);
  }

  /** healthy + unhealthy never exceeds the total for non-negative amounts,
      and equals it when every row carries a flag. */
  lemma SplitBounds(rows: seq<Expense>)
    ensures NonNegative(rows) ==> HealthySum(rows) + UnhealthySum(rows) <= Total(rows)
    ensures AllFlagged(rows) ==> HealthySum(rows) + UnhealthySum(rows) == Total(rows)
  {
    SumsPartition(rows);
    if NonNegative(rows) {
      SumsNonNegative(rows);
    }
    if AllFlagged(rows) {
      FlaggedLeavesNothing(rows);
    }
  }

  /** Sums over a concatenation add up, so a row appended to the table adds its amount. */
  lemma {:induction false} SumsAppend(a: seq<Expense>, b: seq<Expense>)
    ensures Total(a + b) == Total(a) + Total(b)
    ensures HealthySum(a + b) == HealthySum(a) + HealthySum(b)
    ensures UnhealthySum(a + b) == UnhealthySum(a) + UnhealthySum(b)
  {
    if a != [] {
      assert (a + b)[1..] == a[1..] + b;
      SumsAppend(a[1..], b);
    } else {
      assert a + b == b;
    }
  }

  datatype ReportBody =
    | NoExpenses
    | Summary(total: real, healthy: real, unhealthy: real, dietScore: Option<real>)
    | CloudError

  datatype MonthlyReport = MonthlyReport(period: Period, body: ReportBody)

  /** The diet score, the healthy share of spending in percent. */
  function DietScore(healthy: real, total: real): real
    requires total != 0.0
  {
    healthy / total * 100.0
  }

  /** A part of a positive whole is at most all of it. */
  lemma ShareBounds(part: real, whole: real)
    requires 0.0 <= part <= whole && 0.0 < whole
    ensures 0.0 <= part / whole <= 1.0
  {
    var q := part / whole;
    assert q * whole == part;
    assert q <= 1.0;
  }

  /** With non-negative amounts the score is a percentage. */
  lemma ScoreIsPercentage(rows: seq<Expense>)
    requires NonNegative(rows) && Total(rows) > 0.0
    ensures 0.0 <= DietScore(HealthySum(rows), Total(rows)) <= 100.0
  {
    SplitBounds(rows);
    SumsNonNegative(rows);
    ShareBounds(HealthySum(rows), Total(rows));
  }

  /** `generate_monthly_report` without the spreadsheet export: the period,
      then a failed read, an empty month, or the three sums with the score
      when the total is positive. */
  function GenerateMonthlyReport(expenses: seq<Expense>, month: Option<int>, year: Option<int>,
                                 today: Date, readFails: bool): (r: MonthlyReport)
    ensures r.period == ReportPeriod(month, year, today)
    ensures readFails <==> r.body.CloudError?
    ensures !readFails ==>
              (r.body.NoExpenses? <==> forall e :: e in expenses ==> !InWindow(e.date, r.period))
    ensures r.body.Summary? ==> (r.body.dietScore.Some? <==> r.body.total > 0.0)
    ensures r.body.Summary? ==>
              && r.body.total == Total(RowsIn(expenses, r.period))
              && r.body.healthy == HealthySum(RowsIn(expenses, r.period))
              && r.body.unhealthy == UnhealthySum(RowsIn(expenses, r.period))
              && r.body.total == r.body.healthy + r.body.unhealthy + UnflaggedSum(RowsIn(expenses, r.period))
    ensures r.body.Summary? && r.body.dietScore.Some? ==>
              r.body.total > 0.0 && r.body.dietScore.value == DietScore(r.body.healthy, r.body.total)
  {
    var p := ReportPeriod(month, year, today);
    if readFails then MonthlyReport(p, CloudError)
    else
      var rows := RowsIn(expenses, p);
      if rows == [] then MonthlyReport(p, NoExpenses)
      else
        var total, healthy, unhealthy := Total(rows), HealthySum(rows), UnhealthySum(rows);
        SumsPartition(rows);
        MonthlyReport(p, Summary(total, healthy, unhealthy,
                                 if total > 0.0 then Some(DietScore(healthy, total)) else None))
  }

  /** With non-negative amounts the report's diet score is a percentage. */
  lemma ReportScoreIsPercentage(expenses: seq<Expense>, month: Option<int>, year: Option<int>, today: Date)
    requires NonNegative(expenses)
    ensures var r := GenerateMonthlyReport(expenses, month, year, today, false);
            r.body.Summary? && r.body.dietScore.Some? ==> 0.0 <= r.body.dietScore.value <= 100.0
  {
    var r := GenerateMonthlyReport(expenses, month, year, today, false);
    var rows := RowsIn(expenses, r.period);
    forall i | 0 <= i < |rows|
      ensures 0.0 <= rows[i].amount
    {
      assert rows[i] in expenses;
    }
    if r.body.Summary? && r.body.dietScore.Some? {
      ScoreIsPercentage(rows);
    }
  }

  /** An expense dated outside the report's month does not change the report. */
  lemma OtherMonthIgnored(expenses: seq<Expense>, e: Expense, month: Option<int>, year: Option<int>,
                          today: Date, readFails: bool)
    requires !InWindow(e.date, ReportPeriod(month, year, today))
    ensures GenerateMonthlyReport(expenses + [e], month, year, today, readFails)
            == GenerateMonthlyReport(expenses, month, year, today, readFails)
  {
    var p := ReportPeriod(month, year, today);
    RowsInAppend(expenses, e, p);
    assert RowsIn(expenses, p) + [] == RowsIn(expenses, p);
  }

  /** An expense dated inside the month adds its amount to the total, and to
      the healthy or unhealthy sum as its flag says. */
  lemma SameMonthCounted(expenses: seq<Expense>, e: Expense, month: Option<int>, year: Option<int>, today: Date)
    requires InWindow(e.date, ReportPeriod(month, year, today))
    ensures var r := GenerateMonthlyReport(expenses + [e], month, year, today, false);
            var r0 := GenerateMonthlyReport(expenses, month, year, today, false);
            && r.body.Summary?
            && r.body.total == (if r0.body.Summary? then r0.body.total else 0.0) + e.amount
            && r.body.healthy == (if r0.body.Summary? then r0.body.healthy else 0.0)
                                 + (if IsHealthy(e) then e.amount else 0.0)
            && r.body.unhealthy == (if r0.body.Summary? then r0.body.unhealthy else 0.0)
                                   + (if IsUnhealthy(e) then e.amount else 0.0)
  {
    var p := ReportPeriod(month, year, today);
    RowsInAppend(expenses, e, p);
    SumsAppend(RowsIn(expenses, p), [e]);
    assert Total([e]) == e.amount;
    assert HealthySum([e]) == (if IsHealthy(e) then e.amount else 0.0);
    assert UnhealthySum([e]) == (if IsUnhealthy(e) then e.amount else 0.0);
  }

  /** The window filter over an appended row. */
  lemma {:induction false} RowsInAppend(rows: seq<Expense>, e: Expense, p: Period)
    ensures RowsIn(rows + [e], p) == RowsIn(rows, p) + (if InWindow(e.date, p) then [e] else [])
  {
    if rows == [] {
      assert rows + [e] == [e];
    } else {
      assert (rows + [e])[1..] == rows[1..] + [e];
      RowsInAppend(rows[1..], e, p);
    }
  }

  /** December's window ends on 1 January of the next year: it holds
      31 December and not New Year's Day, in every year. */
  lemma DecemberWindow(y: int)
    ensures EndDate(Period(12, y)) == Date(y + 1, 1, 1)
    ensures InWindow(Date(y, 12, 31), Period(12, y))
    ensures !InWindow(Date(y + 1, 1, 1), Period(12, y))
  {
  }
}
