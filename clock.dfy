/** Local calendar time as the source's `Date` objects present it.
    A date is its local fields (year, zero-based month, day of month, hour,
    minute, second, millisecond); its instant is the number of milliseconds
    since 1970-01-01 00:00 local time. A fixed UTC offset is assumed, so every
    local day is 24 hours long. */
module Clock {
  import opened Text

  const MsPerSecond: int := 1000
  const MsPerMinute: int := 60000
  const MsPerHour: int := 3600000
  const MsPerDay: int := 86400000

  /** Gregorian leap-year rule. */
  predicate IsLeap(y: int) {
    y % 4 == 0 && (y % 100 != 0 || y % 400 == 0)
  }

  /** The number of days of zero-based month `m` of year `y`. */
  function DaysInMonth(y: int, m: int): (n: int)
    requires 0 <= m < 12
    ensures 28 <= n <= 31
    ensures m == 1 ==> (n == 29 <==> IsLeap(y))
  {
    if m == 1 then (if IsLeap(y) then 29 else 28)
    else if m == 3 || m == 5 || m == 8 || m == 10 then 30
    else 31
  }

  /** The days from 1 March of year 0 to 1 March of year `y`, counted in
      whole 400-year eras plus the years of the current era. */
  function MarchBase(y: int): int {
    var era := y / 400;
    var yoe := y % 400;
    era * 146097 + yoe * 365 + yoe / 4 - yoe / 100
  }

  /** One year after 1 March of `y` is 1 March of `y + 1`: 365 days, or 366
      when the February in between has 29 days. */
  lemma MarchBaseStep(y: int)
    ensures MarchBase(y + 1) - MarchBase(y) == 365 + (if IsLeap(y + 1) then 1 else 0)
  {
    var q, r := y / 400, y % 400;
    if r < 399 {
      DivModUnique(y + 1, 400, q, r + 1);
      QuotientStep(r, 4);
      QuotientStep(r, 100);
      LeapShift(y + 1, q, r + 1);
      assert IsLeap(r + 1) <==> (r + 1) % 4 == 0 && (r + 1) % 100 != 0;
    } else {
      DivModUnique(y + 1, 400, q + 1, 0);
      LeapShift(y + 1, q + 1, 0);
    }
  }

  /** Stepping `n` by one raises `n / m` by one exactly when `m` divides
      `n + 1`. */
  lemma QuotientStep(n: int, m: int)
    requires m > 0
    ensures (n + 1) / m == n / m + (if (n + 1) % m == 0 then 1 else 0)
  {
    var a, b := n / m, n % m;
    if b == m - 1 {
      DivModUnique(n + 1, m, a + 1, 0);
    } else {
      DivModUnique(n + 1, m, a, b + 1);
    }
  }

  /** Whole 400-year eras do not change the leap-year rule. */
  lemma LeapShift(a: int, q: int, n: int)
    requires a == 400 * q + n
    ensures IsLeap(a) <==> IsLeap(n)
  {
    DivModUnique(a, 4, 100 * q + n / 4, n % 4);
    DivModUnique(a, 100, 4 * q + n / 100, n % 100);
    DivModUnique(a, 400, q + n / 400, n % 400);
  }

  /** The day number (days since 1970-01-01) of day `d` of zero-based month
      `m` of year `y`: the count `new Date(y, m, d)` is built from. */
  function DaysFromCivil(y: int, m: int, d: int): int
    requires 0 <= m < 12
  {
    var yy := if m <= 1 then y - 1 else y;
    var mp := (m + 10) % 12;
    MarchBase(yy) + (153 * mp + 2) / 5 + d - 1 - 719468
  }

  /** The instant of `new Date(y, m, d, h, mi, s)`. */
  function LocalInstant(y: int, m: int, d: int, h: int, mi: int, s: int): int
    requires 0 <= m < 12
  {
    DaysFromCivil(y, m, d) * MsPerDay + h * MsPerHour + mi * MsPerMinute + s * MsPerSecond
  }

  /** The local fields of a `Date`. */
  datatype DateTime = DateTime(year: int, month: int, day: int,
                               hour: int, minute: int, second: int, millisecond: int)

  /** The fields a `Date` can report. */
  predicate Valid(dt: DateTime) {
    0 <= dt.month < 12 && 1 <= dt.day <= DaysInMonth(dt.year, dt.month) &&
    0 <= dt.hour < 24 && 0 <= dt.minute < 60 && 0 <= dt.second < 60 &&
    0 <= dt.millisecond < 1000
  }

  /** `date.getTime()`. */
  function Instant(dt: DateTime): int
    requires Valid(dt)
  {
    LocalInstant(dt.year, dt.month, dt.day, dt.hour, dt.minute, dt.second) + dt.millisecond
  }

  /** The day number of the date's local calendar day. */
  function DayNumber(dt: DateTime): int
    requires Valid(dt)
  {
    DaysFromCivil(dt.year, dt.month, dt.day)
  }

  /** The millisecond within its day lies in [0, MsPerDay), so the day number
      is the instant divided by the length of a day. */
  lemma InstantDay(dt: DateTime)
    requires Valid(dt)
    ensures DayNumber(dt) * MsPerDay <= Instant(dt) < (DayNumber(dt) + 1) * MsPerDay
    ensures Instant(dt) / MsPerDay == DayNumber(dt)
  {
  }

  /** The same local time on the next calendar day: `setDate(getDate() + 1)`,
      rolling over into the next month or year. */
  function NextDay(dt: DateTime): (r: DateTime)
    requires Valid(dt)
    ensures Valid(r)
    ensures r.hour == dt.hour && r.minute == dt.minute && r.second == dt.second
    ensures r.millisecond == dt.millisecond
  {
    if dt.day < DaysInMonth(dt.year, dt.month) then dt.(day := dt.day + 1)
    else if dt.month < 11 then dt.(month := dt.month + 1, day := 1)
    else dt.(year := dt.year + 1, month := 0, day := 1)
  }

  /** The next calendar day has the next day number and lies exactly one day
      later. */
  lemma NextDayNumber(dt: DateTime)
    requires Valid(dt)
    ensures DayNumber(NextDay(dt)) == DayNumber(dt) + 1
    ensures Instant(NextDay(dt)) == Instant(dt) + MsPerDay
  {
    var n := NextDay(dt);
    var y, m, d := dt.year, dt.month, dt.day;
    if d < DaysInMonth(y, m) {
      assert n == dt.(day := d + 1);
    } else if m == 1 {
      assert n.year == y && n.month == 2 && n.day == 1;
      MarchBaseStep(y - 1);
      assert DaysFromCivil(y, 2, 1) == MarchBase(y) - 719468;
      assert DaysFromCivil(y, 1, d) == MarchBase(y - 1) + 337 + d - 1 - 719468;
    } else if m < 11 {
      assert n.year == y && n.month == m + 1 && n.day == 1;
      MonthStep(y, m);
    } else {
      assert n.year == y + 1 && n.month == 0 && n.day == 1;
      assert DaysFromCivil(y + 1, 0, 1) == MarchBase(y) + 306 - 719468;
      assert DaysFromCivil(y, 11, 31) == MarchBase(y) + 305 - 719468;
    }
    DayInstant(n, DayNumber(dt) + 1);
    DayInstant(dt, DayNumber(dt));
  }

  /** Within one March-based year, the first of month `m + 1` follows the
      last day of month `m`. */
  lemma MonthStep(y: int, m: int)
    requires 0 <= m < 11 && m != 1
    ensures DaysFromCivil(y, m + 1, 1) == DaysFromCivil(y, m, DaysInMonth(y, m)) + 1
  {
    var yy := if m <= 1 then y - 1 else y;
    assert (if m + 1 <= 1 then y - 1 else y) == yy;
    var mp := (m + 10) % 12;
    assert (m + 11) % 12 == mp + 1;
  }

  lemma DayInstant(dt: DateTime, n: int)
    requires Valid(dt) && DayNumber(dt) == n
    ensures Instant(dt) == n * MsPerDay + dt.hour * MsPerHour + dt.minute * MsPerMinute
                           + dt.second * MsPerSecond + dt.millisecond
  {
  }

  /** `addDays(date, days)` for a non-negative count: the same local time
      `days` calendar days later. */
  function AddDays(dt: DateTime, days: nat): (r: DateTime)
    requires Valid(dt)
    ensures Valid(r)
    ensures DayNumber(r) == DayNumber(dt) + days
    ensures Instant(r) == Instant(dt) + days * MsPerDay
    ensures r.hour == dt.hour
    decreases days
  {
    if days == 0 then dt
    else
      var p := AddDays(dt, days - 1);
      NextDayNumber(p);
      NextDay(p)
  }
}
