/**
 * The /api/dashboard/faturamento route: three sums of the valor column over
 * closed date/time windows anchored at one instant — the day, the Monday to
 * Sunday week and the calendar month holding it. The table is a snapshot
 * sequence of rows, None when the database call fails.
 */
module RevenueRoute {
  import opened Wrappers
  import opened Calendar
  import opened BookingsRoute

  const ServerError: string := "Erro interno do servidor."

  predicate InWindow(r: Row, lo: Instant, hi: Instant) {
    lo <= r.scheduledAt <= hi
  }

  /**
   * aggregate({ _sum: { valor: true }, where: { data_hora: { gte: lo, lte: hi } } }):
   * like SQL SUM, None when no row in the window has a non-null valor.
   */
  function SumInRange(rows: seq<Row>, lo: Instant, hi: Instant): (total: Option<int>)
    ensures total.None? <==> forall i :: 0 <= i < |rows| && InWindow(rows[i], lo, hi) ==> rows[i].value.None?
    ensures (forall i :: 0 <= i < |rows| ==> rows[i].value.GetOr(0) >= 0) ==> total.GetOr(0) >= 0
  {
    if rows == [] then None
    else
      var rest := SumInRange(rows[1..], lo, hi);
      var r := rows[0];
      if InWindow(r, lo, hi) && r.value.Some? then Some(r.value.value + rest.GetOr(0)) else rest
  }

  /** `_sum.valor?.toNumber() ?? 0` */
  function WindowTotal(rows: seq<Row>, lo: Instant, hi: Instant): (total: int)
    ensures (forall i :: 0 <= i < |rows| && InWindow(rows[i], lo, hi) ==> rows[i].value.None?) ==> total == 0
    ensures (forall i :: 0 <= i < |rows| ==> rows[i].value.GetOr(0) >= 0) ==> total >= 0
  {
    SumInRange(rows, lo, hi).GetOr(0)
  }

  /** The three calendar periods the dashboard reports. */
  datatype Period = Day | Week | Month

  /** Which day, Monday-to-Sunday week or month (as 12 * year + month) holds `t`. */
  function PeriodOf(p: Period, t: Instant): int {
    match p
    case Day => DayOf(t)
    case Week => MondayWeek(DayOf(t))
    case Month => MonthOf(DayOf(t))
  }

  /** The date-fns window the route builds for period p around `now`. */
  function WindowStart(p: Period, now: Instant): Instant {
    match p
    case Day => StartOfDay(now)
    case Week => StartOfWeek(now, 1)
    case Month => StartOfMonth(now)
  }

  function WindowEnd(p: Period, now: Instant): Instant {
    match p
    case Day => EndOfDay(now)
    case Week => EndOfWeek(now, 1)
    case Month => EndOfMonth(now)
  }

  /** The window of p around `now` holds exactly the instants of now's period. */
  lemma WindowIsPeriod(p: Period, now: Instant, t: Instant)
    ensures WindowStart(p, now) <= t <= WindowEnd(p, now) <==> PeriodOf(p, t) == PeriodOf(p, now)
  {
    match p
    case Day => DayWindow(now, t);
    case Week => MondayWeekWindow(now, t);
    case Month => MonthWindow(now, t);
  }

  /** Reference definition: the non-null valor of the rows dated in now's period, added up. */
  function PeriodTotal(rows: seq<Row>, p: Period, now: Instant): int {
    if rows == [] then 0
    else
      (if PeriodOf(p, rows[0].scheduledAt) == PeriodOf(p, now) then rows[0].value.GetOr(0) else 0) +
      PeriodTotal(rows[1..], p, now)
  }

  /** The windowed query adds up exactly the rows of now's calendar period. */
  lemma {:induction false} WindowTotalIsPeriodTotal(rows: seq<Row>, p: Period, now: Instant)
    ensures WindowTotal(rows, WindowStart(p, now), WindowEnd(p, now)) == PeriodTotal(rows, p, now)
  {
    if rows != [] {
      WindowIsPeriod(p, now, rows[0].scheduledAt);
      WindowTotalIsPeriodTotal(rows[1..], p, now);
    }
  }

  /** With non-negative values, a period's total is at least the total of the day of `now` it contains. */
  lemma {:induction false} DayTotalBelowPeriod(rows: seq<Row>, p: Period, now: Instant)
    requires forall i :: 0 <= i < |rows| ==> rows[i].value.GetOr(0) >= 0
    ensures 0 <= PeriodTotal(rows, Day, now) <= PeriodTotal(rows, p, now)
  {
    if rows != [] {
      DayTotalBelowPeriod(rows[1..], p, now);
    }
  }

  /** The JSON the route answers. */
  datatype RevenueResponse =
    | Summary(today: int, week: int, month: int)
    | Failure(status: int, message: string)

  /**
   * GET: the day, week and month totals around the one instant `now`; a failing
   * database call (no snapshot) answers 500 with the generic message.
   */
  function Revenue(now: Instant, snapshot: Option<seq<Row>>): (response: RevenueResponse)
    ensures snapshot.None? <==> response == Failure(500, ServerError)
    ensures snapshot.Some? ==>
              response == Summary(PeriodTotal(snapshot.value, Day, now),
                                  PeriodTotal(snapshot.value, Week, now),
                                  PeriodTotal(snapshot.value, Month, now))
    ensures snapshot.Some? && (forall i :: 0 <= i < |snapshot.value| ==> snapshot.value[i].value.GetOr(0) >= 0) ==>
              0 <= response.today <= response.week && response.today <= response.month
  {
    match snapshot
    case None => Failure(500, ServerError)
    case Some(rows) =>
      var hoje := WindowTotal(rows, StartOfDay(now), EndOfDay(now));
      var semana := WindowTotal(rows, StartOfWeek(now, 1), EndOfWeek(now, 1));
      var mes := WindowTotal(rows, StartOfMonth(now), EndOfMonth(now));
      WindowTotalIsPeriodTotal(rows, Day, now);
      WindowTotalIsPeriodTotal(rows, Week, now);
      WindowTotalIsPeriodTotal(rows, Month, now);
      if forall i :: 0 <= i < |rows| ==> rows[i].value.GetOr(0) >= 0 then
        DayTotalBelowPeriod(rows, Week, now);
        DayTotalBelowPeriod(rows, Month, now);
        Summary(hoje, semana, mes)
      else
        Summary(hoje, semana, mes)
  }
}
