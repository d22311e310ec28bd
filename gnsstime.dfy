/** The calendar arithmetic of `gnsstime` (gnsstools/gnsstime.py): an
    instant of the proleptic Gregorian calendar with its day of year, week
    of year, second of day and of week, the day and week counts since the
    GPS epoch 1980-01-06, and the Julian dates. Seconds are exact reals
    here, where the source uses binary floating point. */
module GnssTime {
  import opened Rinex

  /** A `datetime` without time zone: the fields the source reads. */
  datatype Instant = Instant(
    year: int, month: int, day: int,
    hour: int, minute: int, second: int, microsecond: int)

  /** `calendar.isleap`. */
  predicate IsLeap(year: int) {
    year % 4 == 0 && (year % 100 != 0 || year % 400 == 0)
  }

  function YearLength(year: int): int {
    if IsLeap(year) then 366 else 365
  }

  /** `calendar.monthrange(year, month)[1]`. */
  function MonthLength(year: int, month: int): (n: int)
    requires 1 <= month <= 12
    ensures 28 <= n <= 31
  {
    if month == 2 then (if IsLeap(year) then 29 else 28)
    else if month == 4 || month == 6 || month == 9 || month == 11 then 30
    else 31
  }

  /** The days of the months of `year` before `month`. */
  function DaysBeforeMonth(year: int, month: int): int
    requires 1 <= month <= 13
  {
    if month == 1 then 0 else DaysBeforeMonth(year, month - 1) + MonthLength(year, month - 1)
  }

  /** The instants `datetime` accepts. */
  predicate Valid(t: Instant) {
    && 1 <= t.year <= 9999
    && 1 <= t.month <= 12
    && 1 <= t.day <= MonthLength(t.year, t.month)
    && 0 <= t.hour < 24 && 0 <= t.minute < 60 && 0 <= t.second < 60
    && 0 <= t.microsecond < 1000000
  }

  const Epoch1970 := Instant(1970, 1, 1, 0, 0, 0, 0)
  const GpsOrigin := Instant(1980, 1, 6, 0, 0, 0, 0)
  const Seconds2000: real := 946728000.0
  const Mjd2000: real := 51544.5
  const JdOffset: real := 2400000.5
  const Jd1950: real := 2433282.5
  const Sessions := "abcdefghijklmnopqrstuvwx0"

  /** The twelve months fill the year. */
  lemma DaysBeforeYearEnd(year: int)
    ensures DaysBeforeMonth(year, 13) == YearLength(year)
  {
    DaysBeforeClosed(year, 13);
  }

  /** The cumulative month lengths of a common year. */
  const CommonDaysBefore: seq<int> := [0, 31, 59, 90, 120, 151, 181, 212, 243, 273, 304, 334, 365]

  lemma {:induction false} DaysBeforeClosed(year: int, month: int)
    requires 1 <= month <= 13
    ensures DaysBeforeMonth(year, month) ==
      CommonDaysBefore[month - 1] + if month > 2 && IsLeap(year) then 1 else 0
  {
    if month > 1 {
      DaysBeforeClosed(year, month - 1);
    }
  }

  /** Months before `month` take at most the days before the year's end
      less the month itself. */
  lemma {:induction false} DaysBeforeMonotone(year: int, m: int, n: int)
    requires 1 <= m <= n <= 13
    ensures DaysBeforeMonth(year, m) <= DaysBeforeMonth(year, n)
    decreases n - m
  {
    if m < n {
      DaysBeforeMonotone(year, m, n - 1);
    }
  }

  /** `doy`: the day of the month plus the days of the months before it. */
  function DayOfYear(t: Instant): int
    requires 1 <= t.month <= 12
  {
    t.day + DaysBeforeMonth(t.year, t.month)
  }

  /** The loop of `doy`, month by month. */
  method Doy(t: Instant) returns (days: int)
    requires Valid(t)
    ensures days == DayOfYear(t)
    ensures 1 <= days <= YearLength(t.year)
  {
    days := t.day;
    var month := 1;
    while month < t.month
      invariant 1 <= month <= t.month
      invariant days == t.day + DaysBeforeMonth(t.year, month)
    {
      days := days + MonthLength(t.year, month);
      month := month + 1;
    }
    DaysBeforeMonotone(t.year, 1, t.month);
    DaysBeforeMonotone(t.year, t.month + 1, 13);
    DaysBeforeYearEnd(t.year);
  }

  /** `woy`: whole weeks of the day of year. */
  function WeekOfYear(t: Instant): (w: int)
    requires Valid(t)
    ensures 0 <= w <= 52
    ensures 7 * w <= DayOfYear(t) < 7 * w + 7
  {
    DaysBeforeMonotone(t.year, 1, t.month);
    DaysBeforeMonotone(t.year, t.month + 1, 13);
    DaysBeforeYearEnd(t.year);
    DayOfYear(t) / 7
  }

  /** The whole seconds of the day. */
  function WholeSod(t: Instant): int {
    (t.hour * 60 + t.minute) * 60 + t.second
  }

  /** `sod`. */
  function Sod(t: Instant): real {
    WholeSod(t) as real + t.microsecond as real / 1000000.0
  }

  lemma SodRange(t: Instant)
    requires Valid(t)
    ensures 0 <= WholeSod(t) < 86400
    ensures 0.0 <= Sod(t) < 86400.0
    ensures WholeSod(t) as real <= Sod(t) < WholeSod(t) as real + 1.0
  {
  }

  /** `sow`: the day of year modulo 7 counts the days of the week, not
      the days since the last GPS week start. */
  function Sow(t: Instant): real
    requires 1 <= t.month <= 12
  {
    var days := DayOfYear(t) % 7;
    ((days * 24 + t.hour) * 60 + t.minute) as real * 60.0 + t.second as real + t.microsecond as real / 1000000.0
  }

  lemma SowRange(t: Instant)
    requires Valid(t)
    ensures Sow(t) == (DayOfYear(t) % 7 * 86400) as real + Sod(t)
    ensures 0.0 <= Sow(t) < 604800.0
  {
    SodRange(t);
  }

  /** The day number of a date counted from 0001-01-01 as day 1, as in
      `date.toordinal`. */
  function Ordinal(year: int, month: int, day: int): int
    requires 1 <= month <= 12
  {
    var y := year - 1;
    365 * y + y / 4 - y / 100 + y / 400 + DaysBeforeMonth(year, month) + day
  }

  /** The closed form of the day number steps by one year length from one
      New Year's day to the next, and by one month length within the year. */
  lemma OrdinalYearStep(year: int)
    ensures Ordinal(year + 1, 1, 1) - Ordinal(year, 1, 1) == YearLength(year)
  {
    var y := year - 1;
    LeapDivisors(y);
  }

  lemma LeapDivisors(y: int)
    ensures (y + 1) / 4 - y / 4 == if (y + 1) % 4 == 0 then 1 else 0
    ensures (y + 1) / 100 - y / 100 == if (y + 1) % 100 == 0 then 1 else 0
    ensures (y + 1) / 400 - y / 400 == if (y + 1) % 400 == 0 then 1 else 0
  {
    NextQuotient(y, 4);
    NextQuotient(y, 100);
    NextQuotient(y, 400);
  }

  lemma NextQuotient(y: int, d: int)
    requires d > 0
    ensures (y + 1) / d - y / d == if (y + 1) % d == 0 then 1 else 0
  {
    var q, r := y / d, y % d;
    if r == d - 1 {
      DivUnique(y + 1, d, q + 1, 0);
    } else {
      DivUnique(y + 1, d, q, r + 1);
    }
  }

  /** Quotient and remainder are the only ones with a remainder in range. */
  lemma DivUnique(a: int, d: int, q: int, r: int)
    requires d > 0 && a == d * q + r && 0 <= r < d
    ensures a / d == q && a % d == r
  {
    var q', r' := a / d, a % d;
    var k := q - q';
    assert d * k == r' - r;
    MulAtLeast(d, k);
  }

  lemma MulAtLeast(d: int, k: int)
    requires d > 0
    ensures k >= 1 ==> d * k >= d
    ensures k <= -1 ==> d * k <= -d
  {
  }

  lemma OrdinalMonthStep(year: int, month: int)
    requires 1 <= month < 12
    ensures Ordinal(year, month + 1, 1) - Ordinal(year, month, 1) == MonthLength(year, month)
  {
  }

  /** The seconds from `origin` to `t`, `(t - origin).total_seconds()`. */
  function SecondsSince(t: Instant, origin: Instant): real
    requires 1 <= t.month <= 12 && 1 <= origin.month <= 12
  {
    var days := Ordinal(t.year, t.month, t.day) - Ordinal(origin.year, origin.month, origin.day);
    (days * 86400 + WholeSod(t) - WholeSod(origin)) as real
      + (t.microsecond - origin.microsecond) as real / 1000000.0
  }

  /** `second0`, `day0` and `week0`. */
  function Second0(t: Instant): real
    requires 1 <= t.month <= 12
  {
    SecondsSince(t, GpsOrigin)
  }

  function Day0(t: Instant): int
    requires 1 <= t.month <= 12
  {
    (Second0(t) / 86400.0).Floor
  }

  function Week0(t: Instant): int
    requires 1 <= t.month <= 12
  {
    (Second0(t) / (86400.0 * 7.0)).Floor
  }

  /** The day count since the GPS origin is the difference of day numbers,
      the week count is that day count in whole weeks, and both are 0 at
      the origin itself. */
  lemma Day0Days(t: Instant)
    requires Valid(t)
    ensures Day0(t) == Ordinal(t.year, t.month, t.day) - Ordinal(1980, 1, 6)
  {
    var days := Ordinal(t.year, t.month, t.day) - Ordinal(1980, 1, 6);
    SodRange(t);
    var s := days * 86400 + WholeSod(t);
    FloorOfSeconds(s, t.microsecond as real / 1000000.0);
    DivUnique(s, 86400, days, WholeSod(t));
  }

  lemma Week0Days(t: Instant)
    requires Valid(t)
    ensures Week0(t) == Day0(t) / 7
  {
    var days := Ordinal(t.year, t.month, t.day) - Ordinal(1980, 1, 6);
    SodRange(t);
    var s := days * 86400 + WholeSod(t);
    var f := t.microsecond as real / 1000000.0;
    FloorOfSeconds(s, f);
    assert 86400.0 * 7.0 == 604800 as real;
    QuotientOfWeek(s);
  }

  /** Whole seconds plus a fraction of a second, floored in days or in
      weeks, are the whole seconds' quotient by the day or the week. */
  lemma FloorOfSeconds(s: int, f: real)
    requires 0.0 <= f < 1.0
    ensures ((s as real + f) / 86400.0).Floor == s / 86400
    ensures ((s as real + f) / 604800.0).Floor == s / 604800
  {
    var q, r := s / 86400, s % 86400;
    assert q as real <= (s as real + f) / 86400.0 < q as real + 1.0;
    var w, v := s / 604800, s % 604800;
    assert w as real <= (s as real + f) / 604800.0 < w as real + 1.0;
  }

  /** Whole days in whole weeks are whole seconds in whole weeks. */
  lemma QuotientOfWeek(s: int)
    ensures s / 86400 / 7 == s / 604800
  {
    var q1, r1 := s / 86400, s % 86400;
    var q2, r2 := q1 / 7, q1 % 7;
    assert s == 604800 * q2 + (86400 * r2 + r1);
    DivUnique(s, 604800, q2, 86400 * r2 + r1);
  }

  lemma OriginCounts()
    ensures Day0(GpsOrigin) == 0 && Week0(GpsOrigin) == 0
  {
  }

  /** `mjd`, `jd` and `jd50`. */
  function Mjd(t: Instant): real
    requires 1 <= t.month <= 12
  {
    (SecondsSince(t, Epoch1970) - Seconds2000) / 86400.0 + Mjd2000
  }

  function Jd(t: Instant): real
    requires 1 <= t.month <= 12
  {
    Mjd(t) + JdOffset
  }

  function Jd50(t: Instant): real
    requires 1 <= t.month <= 12
  {
    Jd(t) - Jd1950
  }

  /** The two constants of `mjd` agree: it is the days since 1970-01-01
      plus 40587, which is the MJD of 1970-01-01; the Julian dates are
      shifts of it. */
  lemma MjdAffine(t: Instant)
    requires 1 <= t.month <= 12
    ensures Mjd(t) == SecondsSince(t, Epoch1970) / 86400.0 + 40587.0
    ensures Jd(t) == Mjd(t) + 2400000.5
    ensures Jd50(t) == Mjd(t) - 33282.0
  {
  }

  lemma MjdAt1970()
    ensures Mjd(Epoch1970) == 40587.0
  {
    MjdAffine(Epoch1970);
  }

  /** `session`: the hour's letter, from 'a' at midnight to 'x' at 23h. */
  function Session(t: Instant): (c: char)
    requires Valid(t)
    ensures 'a' <= c <= 'x'
    ensures c as int == 'a' as int + t.hour
  {
    Sessions[t.hour]
  }

  /** `gnsstime(...)`: the constructor raises ValueError on an instant
      `datetime` rejects. */
  function Make(t: Instant): (r: Result<Instant>)
    ensures r.Ok? <==> Valid(t)
    ensures r.Ok? ==> r.value == t
  {
    if Valid(t) then Ok(t) else Err(ValueError)
  }

  /** The month and day the loop of `fromdoy` stops at, from month
      `month` on with `doy` days left. */
  function Locate(year: int, doy: int, month: int): (md: (int, int))
    requires 1 <= month <= 13
    ensures month <= md.0 <= 13
    decreases 13 - month
  {
    if month <= 12 && doy - MonthLength(year, month) > 0
    then Locate(year, doy - MonthLength(year, month), month + 1)
    else (month, doy)
  }

  /** `fromdoy` with a whole second of day. */
  function FromDoySpec(year: int, doy: int, sod: int): Result<Instant> {
    var (month, day) := Locate(year, doy, 1);
    Make(Instant(year, month, day, sod / 3600, sod % 3600 / 60, sod % 3600 % 60, 0))
  }

  method FromDoy(year: int, doy: int, sod: int) returns (r: Result<Instant>)
    ensures r == FromDoySpec(year, doy, sod)
  {
    var month := 1;
    var left := doy;
    while month <= 12 && left - MonthLength(year, month) > 0
      invariant 1 <= month <= 13
      invariant Locate(year, left, month) == Locate(year, doy, 1)
      decreases 13 - month
    {
      left := left - MonthLength(year, month);
      month := month + 1;
    }
    var hour := sod / 3600;
    var rest := sod % 3600;
    r := Make(Instant(year, month, left, hour, rest / 60, rest % 60, 0));
  }

  /** Where the search ends for a day within the year: a month of the
      year, a day within it, and the day of year given back. */
  lemma {:induction false} LocateInYear(year: int, doy: int, month: int)
    requires 1 <= month <= 12
    requires 1 <= doy && DaysBeforeMonth(year, month) + doy <= YearLength(year)
    ensures var (m, d) := Locate(year, doy, month);
      && month <= m <= 12 && 1 <= d <= MonthLength(year, m)
      && DaysBeforeMonth(year, m) + d == DaysBeforeMonth(year, month) + doy
    decreases 13 - month
  {
    DaysBeforeYearEnd(year);
    if doy - MonthLength(year, month) > 0 {
      DaysBeforeMonotone(year, month + 1, 13);
      LocateInYear(year, doy - MonthLength(year, month), month + 1);
    }
  }

  /** Past the year's end the search runs off December. */
  lemma {:induction false} LocatePastYear(year: int, doy: int, month: int)
    requires 1 <= month <= 13
    requires DaysBeforeMonth(year, month) + doy > YearLength(year)
    ensures Locate(year, doy, month).0 == 13
    decreases 13 - month
  {
    DaysBeforeYearEnd(year);
    if month <= 12 {
      if doy - MonthLength(year, month) <= 0 {
        DaysBeforeMonotone(year, month + 1, 13);
        assert false;
      }
      LocatePastYear(year, doy - MonthLength(year, month), month + 1);
    }
  }

  /** A day within the year and a whole second within the day give an
      instant whose day of year and second of day are those given. */
  lemma FromDoyRoundTrip(year: int, doy: int, sod: int)
    requires 1 <= year <= 9999 && 1 <= doy <= YearLength(year) && 0 <= sod < 86400
    ensures var r := FromDoySpec(year, doy, sod);
      r.Ok? && DayOfYear(r.value) == doy && WholeSod(r.value) == sod && Sod(r.value) == sod as real
  {
    LocateInYear(year, doy, 1);
  }

  /** A valid instant is given back by `fromdoy` of its day of year and
      whole second of day, short of its microseconds. */
  lemma DoyRoundTrip(t: Instant)
    requires Valid(t)
    ensures FromDoySpec(t.year, DayOfYear(t), WholeSod(t)) == Ok(t.(microsecond := 0))
  {
    var doy := DayOfYear(t);
    DaysBeforeMonotone(t.year, t.month + 1, 13);
    DaysBeforeYearEnd(t.year);
    LocateFrom(t.year, t.month, t.day, 1);
    var s := WholeSod(t);
    assert s / 3600 == t.hour && s % 3600 == t.minute * 60 + t.second;
  }

  /** The search finds back the month and day a day of year came from. */
  lemma {:induction false} LocateFrom(year: int, month: int, day: int, from: int)
    requires 1 <= from <= month <= 12 && 1 <= day <= MonthLength(year, month)
    ensures Locate(year, DaysBeforeMonth(year, month) - DaysBeforeMonth(year, from) + day, from) == (month, day)
    decreases month - from
  {
    if from < month {
      DaysBeforeMonotone(year, from + 1, month);
      LocateFrom(year, month, day, from + 1);
    }
  }

  /** A day of year past the year's end makes month 13, and the
      constructor raises; so does a day of year below 1. */
  lemma FromDoyOutOfYear(year: int, doy: int, sod: int)
    requires doy > YearLength(year) || doy < 1
    ensures FromDoySpec(year, doy, sod) == Err(ValueError)
  {
    if doy > YearLength(year) {
      LocatePastYear(year, doy, 1);
    }
  }
}
