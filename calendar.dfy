/**
 * The part of JavaScript's Date and of the date-fns library that the booking
 * code relies on. An instant is a number of milliseconds since 1970-01-01 00:00
 * on the local wall clock; days, weeks and months are counted on that clock in
 * the proleptic Gregorian calendar, without daylight-saving shifts.
 */
module Calendar {

  type Instant = int

  const MsPerSecond: int := 1000
  const MsPerMinute: int := 60 * MsPerSecond
  const MsPerHour: int := 60 * MsPerMinute
  const MsPerDay: int := 24 * MsPerHour

  // ---------------------------------------------------------------- days

  /** Days since 1970-01-01 of the calendar day that holds `t`. */
  function DayOf(t: Instant): int {
    t / MsPerDay
  }

  /** Milliseconds elapsed since midnight of `t`'s day. */
  function TimeOfDay(t: Instant): (ms: int)
    ensures 0 <= ms < MsPerDay
  {
    t % MsPerDay
  }

  /** Date.prototype.getHours */
  function HourOf(t: Instant): (h: int)
    ensures 0 <= h < 24
  {
    TimeOfDay(t) / MsPerHour
  }

  /** Date.prototype.getMinutes */
  function MinuteOf(t: Instant): (m: int)
    ensures 0 <= m < 60
  {
    TimeOfDay(t) % MsPerHour / MsPerMinute
  }

  /** date-fns isSameDay */
  predicate SameDay(a: Instant, b: Instant) {
    DayOf(a) == DayOf(b)
  }

  /** Midnight opening day number `day`. */
  function DayStart(day: int): (t: Instant)
    ensures DayOf(t) == day && TimeOfDay(t) == 0
  {
    day * MsPerDay
  }

  /** Every instant of day `day`, and no other, lies in [DayStart(day), DayStart(day + 1) - 1]. */
  lemma DayBounds(t: Instant, day: int)
    ensures DayOf(t) == day <==> DayStart(day) <= t <= DayStart(day + 1) - 1
  {
    if DayStart(day) <= t <= DayStart(day + 1) - 1 {
      assert day * MsPerDay <= t < day * MsPerDay + MsPerDay;
    }
  }

  /** The instants from the first day `lo` through the day before `hi` are exactly those whose day is in [lo, hi). */
  lemma DaysRange(t: Instant, lo: int, hi: int)
    ensures DayStart(lo) <= t <= DayStart(hi) - 1 <==> lo <= DayOf(t) < hi
  {
    DayBounds(t, DayOf(t));
  }

  /** date-fns startOfDay: the same day at 00:00:00.000 */
  function StartOfDay(t: Instant): (r: Instant)
    ensures r <= t < r + MsPerDay && SameDay(r, t) && TimeOfDay(r) == 0
  {
    DayBounds(t, DayOf(t));
    DayStart(DayOf(t))
  }

  /** date-fns endOfDay: the same day at 23:59:59.999 */
  function EndOfDay(t: Instant): (r: Instant)
    ensures r - MsPerDay < t <= r && SameDay(r, t) && DayOf(r + 1) == DayOf(t) + 1
  {
    DayBounds(t, DayOf(t));
    DayBounds(DayStart(DayOf(t) + 1) - 1, DayOf(t));
    DayStart(DayOf(t) + 1) - 1
  }

  /** The closed window [startOfDay(now), endOfDay(now)] holds exactly the instants of now's day. */
  lemma DayWindow(now: Instant, t: Instant)
    ensures StartOfDay(now) <= t <= EndOfDay(now) <==> SameDay(t, now)
  {
    DayBounds(t, DayOf(now));
  }

  /**
   * Date.prototype.setHours(h, m, s, ms) on a local date: the calendar day is kept
   * and the clock is set, components past their range carrying into later days.
   */
  function SetHours(t: Instant, h: int, m: int, s: int, ms: int): (r: Instant)
    ensures 0 <= h < 24 && 0 <= m < 60 && 0 <= s < 60 && 0 <= ms < 1000 ==>
              SameDay(r, t) && HourOf(r) == h && MinuteOf(r) == m &&
              TimeOfDay(r) % MsPerMinute == s * MsPerSecond + ms
  {
    ClockFields(DayOf(t), h, m, s, ms);
    DayStart(DayOf(t)) + h * MsPerHour + m * MsPerMinute + s * MsPerSecond + ms
  }

  lemma DivDay(x: int, q: int, r: int)
    requires x == q * MsPerDay + r && 0 <= r < MsPerDay
    ensures x / MsPerDay == q && x % MsPerDay == r
  {
  }

  lemma DivHour(x: int, q: int, r: int)
    requires x == q * MsPerHour + r && 0 <= r < MsPerHour
    ensures x / MsPerHour == q && x % MsPerHour == r
  {
  }

  lemma DivMinute(x: int, q: int, r: int)
    requires x == q * MsPerMinute + r && 0 <= r < MsPerMinute
    ensures x / MsPerMinute == q && x % MsPerMinute == r
  {
  }

  lemma ClockFields(day: int, h: int, m: int, s: int, ms: int)
    ensures var r := DayStart(day) + h * MsPerHour + m * MsPerMinute + s * MsPerSecond + ms;
            0 <= h < 24 && 0 <= m < 60 && 0 <= s < 60 && 0 <= ms < 1000 ==>
              DayOf(r) == day && HourOf(r) == h && MinuteOf(r) == m &&
              TimeOfDay(r) % MsPerMinute == s * MsPerSecond + ms
  {
    if 0 <= h < 24 && 0 <= m < 60 && 0 <= s < 60 && 0 <= ms < 1000 {
      var sub := s * MsPerSecond + ms;
      var inHour := m * MsPerMinute + sub;
      var x := h * MsPerHour + inHour;
      var r := day * MsPerDay + x;
      DivDay(r, day, x);
      DivHour(x, h, inHour);
      DivMinute(inHour, m, sub);
      DivMinute(x, h * 60 + m, sub);
    }
  }

  /** date-fns addDays: the same wall-clock time `n` days later (earlier when n < 0). */
  function AddDays(t: Instant, n: int): (r: Instant)
    ensures DayOf(r) == DayOf(t) + n && TimeOfDay(r) == TimeOfDay(t)
  {
    DayBounds(t + n * MsPerDay, DayOf(t) + n);
    t + n * MsPerDay
  }

  /** date-fns subDays */
  function SubDays(t: Instant, n: int): (r: Instant)
    ensures DayOf(r) == DayOf(t) - n && TimeOfDay(r) == TimeOfDay(t)
  {
    AddDays(t, -n)
  }

  // --------------------------------------------------------------- weeks

  /** Date.prototype.getDay: 0 is Sunday, 1 Monday, …, 6 Saturday; 1970-01-01 was a Thursday. */
  function WeekdayOf(day: int): (w: int)
    ensures 0 <= w < 7
  {
    (day + 4) % 7
  }

  /** The day date-fns startOfWeek moves to: back to the last `weekStartsOn` weekday. */
  function WeekStartDay(day: int, weekStartsOn: int): (r: int)
    requires 0 <= weekStartsOn < 7
    ensures day - 6 <= r <= day && WeekdayOf(r) == weekStartsOn
  {
    var w := WeekdayOf(day);
    var diff := (if w < weekStartsOn then 7 else 0) + w - weekStartsOn;
    assert (day + 4) - w == 7 * ((day + 4) / 7);
    day - diff
  }

  /** The day date-fns endOfWeek moves to: forward to the last day of the week. */
  function WeekEndDay(day: int, weekStartsOn: int): (r: int)
    requires 0 <= weekStartsOn < 7
    ensures day <= r <= day + 6 && r == WeekStartDay(day, weekStartsOn) + 6
  {
    var w := WeekdayOf(day);
    var diff := (if w < weekStartsOn then -7 else 0) + 6 - (w - weekStartsOn);
    day + diff
  }

  /** date-fns startOfWeek(t, { weekStartsOn }) */
  function StartOfWeek(t: Instant, weekStartsOn: int): (r: Instant)
    requires 0 <= weekStartsOn < 7
    ensures r <= t && TimeOfDay(r) == 0 && WeekdayOf(DayOf(r)) == weekStartsOn && DayOf(t) - DayOf(r) < 7
  {
    DayBounds(t, DayOf(t));
    DayBounds(DayStart(WeekStartDay(DayOf(t), weekStartsOn)), WeekStartDay(DayOf(t), weekStartsOn));
    DayStart(WeekStartDay(DayOf(t), weekStartsOn))
  }

  /** date-fns endOfWeek(t, { weekStartsOn }) */
  function EndOfWeek(t: Instant, weekStartsOn: int): (r: Instant)
    requires 0 <= weekStartsOn < 7
    ensures t <= r && DayOf(r + 1) == DayOf(r) + 1 && DayOf(r) == DayOf(StartOfWeek(t, weekStartsOn)) + 6
  {
    var last := WeekEndDay(DayOf(t), weekStartsOn);
    DayBounds(t, DayOf(t));
    DayBounds(DayStart(last + 1) - 1, last);
    DayStart(WeekEndDay(DayOf(t), weekStartsOn) + 1) - 1
  }

  /** Number of the Monday-to-Sunday week holding day `day`; week 0 runs from 1969-12-29 to 1970-01-04. */
  function MondayWeek(day: int): int {
    (day + 3) / 7
  }

  /** With weekStartsOn = 1 the week opens on the Monday of MondayWeek and closes on its Sunday. */
  lemma MondayWeekBounds(day: int)
    ensures WeekStartDay(day, 1) == 7 * MondayWeek(day) - 3
    ensures WeekdayOf(WeekStartDay(day, 1)) == 1 && WeekdayOf(WeekEndDay(day, 1)) == 0
  {
    var s := WeekStartDay(day, 1);
    assert (s + 4) % 7 == 1;
    assert s + 3 == 7 * ((s + 3) / 7);
    assert day - 6 <= s <= day;
  }

  /** The closed window [startOfWeek(now), endOfWeek(now)] with Monday starts holds exactly the instants of now's Monday-to-Sunday week. */
  lemma MondayWeekWindow(now: Instant, t: Instant)
    ensures StartOfWeek(now, 1) <= t <= EndOfWeek(now, 1) <==> MondayWeek(DayOf(t)) == MondayWeek(DayOf(now))
  {
    var first := WeekStartDay(DayOf(now), 1);
    MondayWeekBounds(DayOf(now));
    DaysRange(t, first, first + 7);
  }

  // -------------------------------------------------------------- months

  predicate IsLeapYear(y: int) {
    y % 4 == 0 && (y % 100 != 0 || y % 400 == 0)
  }

  /** Length of month `m` of year `y`, months counted from 0 = January as Date.prototype.getMonth does. */
  function DaysInMonth(y: int, m: int): (n: int)
    requires 0 <= m < 12
    ensures 28 <= n <= 31
  {
    if m == 1 then (if IsLeapYear(y) then 29 else 28)
    else if m == 3 || m == 5 || m == 8 || m == 10 then 30
    else 31
  }

  /** Length of month k, months numbered k = 12 * year + month (month from 0). */
  function MonthLength(k: int): (n: int)
    ensures 28 <= n <= 31
  {
    DaysInMonth(k / 12, k % 12)
  }

  /** January 1970 */
  const EpochMonth: int := 1970 * 12

  /** Day number of the first of month k: month lengths summed from January 1970. */
  function FirstDay(k: int): int
    decreases if k < EpochMonth then EpochMonth - k else k - EpochMonth
  {
    if k == EpochMonth then 0
    else if k > EpochMonth then FirstDay(k - 1) + MonthLength(k - 1)
    else FirstDay(k + 1) - MonthLength(k)
  }

  /** Consecutive months are MonthLength apart, on both sides of 1970. */
  lemma FirstDayStep(k: int)
    ensures FirstDay(k + 1) == FirstDay(k) + MonthLength(k)
  {
  }

  /** A year of the month table spans 366 days when it is a leap year and 365 otherwise. */
  lemma YearLength(y: int)
    ensures FirstDay(12 * y + 12) - FirstDay(12 * y) == if IsLeapYear(y) then 366 else 365
  {
    var m := 0;
    while m < 12
      invariant 0 <= m <= 12
      invariant FirstDay(12 * y + m) - FirstDay(12 * y) ==
                  (if m > 1 && IsLeapYear(y) then 1 else 0) + CumulativeDays(m)
    {
      FirstDayStep(12 * y + m);
      assert (12 * y + m) / 12 == y && (12 * y + m) % 12 == m;
      m := m + 1;
    }
  }

  /** Days before month m (from 0) in a common year. */
  function CumulativeDays(m: int): int
    requires 0 <= m <= 12
  {
    if m == 0 then 0 else CumulativeDays(m - 1) + DaysInMonth(1, m - 1)
  }

  /** 1 March falls 59 days into a common year and 60 days into a leap year. */
  lemma MarchFirst(y: int)
    ensures FirstDay(12 * y + 2) - FirstDay(12 * y) == if IsLeapYear(y) then 60 else 59
  {
    FirstDayStep(12 * y);
    FirstDayStep(12 * y + 1);
    assert (12 * y) / 12 == y && (12 * y) % 12 == 0;
    assert (12 * y + 1) / 12 == y && (12 * y + 1) % 12 == 1;
  }

  /** Samples of the month table around the epoch: 1 March 1972, after the leap February, is day 790; 1 December 1969 is day -31. */
  lemma MonthTableSamples(y: int)
    requires y == 1972
    ensures FirstDay(12 * y + 2) == 790
    ensures FirstDay(12 * (y - 3) + 11) == -31
  {
    YearLength(y - 2);
    YearLength(y - 1);
    MarchFirst(y);
    FirstDayStep(12 * (y - 3) + 11);
    assert (12 * (y - 3) + 11) / 12 == y - 3 && (12 * (y - 3) + 11) % 12 == 11;
  }

  lemma {:induction false} FirstDayMonotone(i: int, j: int)
    requires i <= j
    ensures FirstDay(i) <= FirstDay(j)
    decreases j - i
  {
    if i < j {
      FirstDayMonotone(i, j - 1);
      FirstDayStep(j - 1);
    }
  }

  /** Searches forward from month k for the month holding `day`. */
  function MonthFrom(day: int, k: int): (r: int)
    requires FirstDay(k) <= day
    ensures FirstDay(r) <= day < FirstDay(r + 1)
    decreases day - FirstDay(k)
  {
    FirstDayStep(k);
    if day < FirstDay(k + 1) then k else MonthFrom(day, k + 1)
  }

  /** Searches backward from month k for the month holding `day`. */
  function MonthBefore(day: int, k: int): (r: int)
    requires day < FirstDay(k + 1)
    ensures FirstDay(r) <= day < FirstDay(r + 1)
    decreases FirstDay(k + 1) - day
  {
    FirstDayStep(k);
    if FirstDay(k) <= day then k else MonthBefore(day, k - 1)
  }

  /** The month (as 12 * year + month) holding day number `day`. */
  function MonthOf(day: int): (k: int)
    ensures FirstDay(k) <= day < FirstDay(k + 1)
  {
    if day >= 0 then MonthFrom(day, EpochMonth) else MonthBefore(day, EpochMonth - 1)
  }

  /** A day lies in exactly one month. */
  lemma MonthUnique(day: int, a: int, b: int)
    requires FirstDay(a) <= day < FirstDay(a + 1)
    requires FirstDay(b) <= day < FirstDay(b + 1)
    ensures a == b
  {
    if a < b {
      FirstDayMonotone(a + 1, b);
    } else if b < a {
      FirstDayMonotone(b + 1, a);
    }
  }

  /** date-fns startOfMonth: the first of the month at 00:00:00.000 */
  function StartOfMonth(t: Instant): (r: Instant)
    ensures r <= t && TimeOfDay(r) == 0 && DayOf(r) == FirstDay(MonthOf(DayOf(t)))
  {
    DayBounds(t, DayOf(t));
    DayStart(FirstDay(MonthOf(DayOf(t))))
  }

  /** date-fns endOfMonth: the last day of the month at 23:59:59.999 */
  function EndOfMonth(t: Instant): (r: Instant)
    ensures t <= r && DayOf(r + 1) == DayOf(r) + 1 && DayOf(r + 1) == FirstDay(MonthOf(DayOf(t)) + 1)
  {
    DayBounds(t, DayOf(t));
    DayBounds(DayStart(FirstDay(MonthOf(DayOf(t)) + 1)) - 1, FirstDay(MonthOf(DayOf(t)) + 1) - 1);
    DayStart(FirstDay(MonthOf(DayOf(t)) + 1)) - 1
  }

  /** The closed window [startOfMonth(now), endOfMonth(now)] holds exactly the instants of now's calendar month. */
  lemma MonthWindow(now: Instant, t: Instant)
    ensures StartOfMonth(now) <= t <= EndOfMonth(now) <==> MonthOf(DayOf(t)) == MonthOf(DayOf(now))
  {
    var k := MonthOf(DayOf(now));
    DaysRange(t, FirstDay(k), FirstDay(k + 1));
    if FirstDay(k) <= DayOf(t) < FirstDay(k + 1) {
      MonthUnique(DayOf(t), k, MonthOf(DayOf(t)));
    }
  }

  /** The day window of `now` lies inside its week window and inside its month window. */
  lemma DayInsideWeekAndMonth(now: Instant)
    ensures StartOfWeek(now, 1) <= StartOfDay(now) && EndOfDay(now) <= EndOfWeek(now, 1)
    ensures StartOfMonth(now) <= StartOfDay(now) && EndOfDay(now) <= EndOfMonth(now)
  {
    DayWindow(now, StartOfDay(now));
    DayWindow(now, EndOfDay(now));
    MondayWeekWindow(now, StartOfDay(now));
    MondayWeekWindow(now, EndOfDay(now));
    MonthWindow(now, StartOfDay(now));
    MonthWindow(now, EndOfDay(now));
  }
}
