/** Calendar arithmetic in the proleptic Gregorian calendar (assets/stdlib/datetime.js).

    The reference is `DayNumber`, the count of days from 1970-01-01 that is right for
    every year. The source counts no leap days before year 1, so its laws hold from
    0001-01-01 on; every theorem says exactly where. */
module DateTimes {
  import opened Integers

  datatype Date = Date(year: int, month: int, day: int)

  datatype Time = Time(hour: int, min: int, sec: int)

  datatype DateTime = DateTime(date: Date, time: Time)

  datatype Tz = Tz(name: string, offset: int)

  datatype LocalDateTime = LocalDateTime(civil: DateTime, tz: Tz)

  // ---------------------------------------------------------------- the source's arithmetic

  predicate IsLeap(y: int) {
    if IntMod(y, 400) == 0 then true
    else if IntMod(y, 100) == 0 then false
    else IntMod(y, 4) == 0
  }

  function DaysInMonth(y: int, m: int): int {
    if m == 1 || m == 3 || m == 5 || m == 7 || m == 8 || m == 10 || m == 12 then 31
    else if m == 4 || m == 6 || m == 9 || m == 11 then 30
    else if IsLeap(y) then 29
    else 28
  }

  function LeapCount(n: int): int {
    IntDiv(n, 4) - IntDiv(n, 100) + IntDiv(n, 400)
  }

  function YearToDays(y: int): int {
    var y1 := y - 1;
    var leaps := if y1 > 0 then LeapCount(y1) else 0;
    y1 * 365 + leaps - (1969 * 365 + 477)
  }

  function MonthSum(y: int, m: int, mi: int, acc: int): int
    decreases m - mi
  {
    if mi >= m then acc else MonthSum(y, m, mi + 1, acc + DaysInMonth(y, mi))
  }

  function DateToDays(d: Date): int {
    YearToDays(d.year) + MonthSum(d.year, d.month, 1, 0) + (d.day - 1)
  }

  function YearLen(y: int): int {
    if IsLeap(y) then 366 else 365
  }

  function FindYearFwd(y: int, rem: int): (int, int)
    decreases rem
  {
    if rem < YearLen(y) then (y, rem) else FindYearFwd(y + 1, rem - YearLen(y))
  }

  function FindYearBwd(y: int, negRem: int): (int, int)
    decreases -negRem
  {
    var prev := y - 1;
    if negRem + YearLen(prev) >= 0 then (prev, negRem + YearLen(prev)) else FindYearBwd(prev, negRem + YearLen(prev))
  }

  function FindMonth(yr: int, m: int, rem: int): (int, int)
    decreases rem
  {
    var dm := DaysInMonth(yr, m);
    if rem < dm then (m, rem + 1) else FindMonth(yr, m + 1, rem - dm)
  }

  function DaysToDate(days: int): Date {
    var (yr, doy) := if days >= 0 then FindYearFwd(1970, days) else FindYearBwd(1970, days);
    var (mo, da) := FindMonth(yr, 1, doy);
    Date(yr, mo, da)
  }

  /** The floored division and remainder the source asks for are Dafny's. */
  function FromTimestamp(ts: int): DateTime {
    var days, secs := ts / 86400, ts % 86400;
    DateTime(DaysToDate(days), Time(IntDiv(secs, 3600), IntDiv(IntMod(secs, 3600), 60), IntMod(secs, 60)))
  }

  function ToTimestamp(dt: DateTime): int {
    DateToDays(dt.date) * 86400 + dt.time.hour * 3600 + dt.time.min * 60 + dt.time.sec
  }

  function Compare(a: DateTime, b: DateTime): int {
    var ta, tb := ToTimestamp(a), ToTimestamp(b);
    if ta < tb then -1 else if ta > tb then 1 else 0
  }

  function AddSeconds(dt: DateTime, n: int): DateTime {
    FromTimestamp(ToTimestamp(dt) + n)
  }

  function LocalFromTimestamp(ts: int, tz: Tz): LocalDateTime {
    LocalDateTime(FromTimestamp(ts + tz.offset), tz)
  }

  function LocalToUtc(ldt: LocalDateTime): DateTime {
    AddSeconds(ldt.civil, 0 - ldt.tz.offset)
  }

  function LocalToTimestamp(ldt: LocalDateTime): int {
    ToTimestamp(LocalToUtc(ldt))
  }

  function LocalWithZone(ldt: LocalDateTime, tz: Tz): LocalDateTime {
    LocalFromTimestamp(LocalToTimestamp(ldt), tz)
  }

  // ---------------------------------------------------------------- the calendar

  /** The Gregorian rule, for every year. */
  predicate LeapYear(y: int) {
    y % 4 == 0 && (y % 100 != 0 || y % 400 == 0)
  }

  /** The months of a common year. */
  const MONTHS := [31, 28, 31, 30, 31, 30, 31, 31, 30, 31, 30, 31]

  /** The days of a common year before each month, and of the whole year. */
  const DAYS_BEFORE := [0, 31, 59, 90, 120, 151, 181, 212, 243, 273, 304, 334, 365]

  function LeapDay(y: int): int {
    if LeapYear(y) then 1 else 0
  }

  /** A month past December, which no date has, counts as long as February. */
  function MonthLen(y: int, m: int): int {
    if 1 <= m <= 12 && m != 2 then MONTHS[m - 1] else MONTHS[1] + LeapDay(y)
  }

  predicate ValidDate(d: Date) {
    1 <= d.month <= 12 && 1 <= d.day <= MonthLen(d.year, d.month)
  }

  predicate ValidTime(t: Time) {
    0 <= t.hour < 24 && 0 <= t.min < 60 && 0 <= t.sec < 60
  }

  predicate Valid(dt: DateTime) {
    ValidDate(dt.date) && ValidTime(dt.time)
  }

  /** Leap years in 1..n, and minus those in n+1..0 when `n` is negative. */
  function Leaps(n: int): int {
    n / 4 - n / 100 + n / 400
  }

  /** Days from 1970-01-01 to January 1st of any year. */
  function NewYear(y: int): int {
    365 * (y - 1) + Leaps(y - 1) - 719162
  }

  /** Days of year `y` before month `m`. */
  function Before(y: int, m: int): int
    decreases m
  {
    if m <= 1 then 0
    else if m <= 13 then DAYS_BEFORE[m - 1] + (if m > 2 then LeapDay(y) else 0)
    else Before(y, m - 1) + MonthLen(y, m - 1)
  }

  /** Days from 1970-01-01 to a date, in any year. */
  function DayNumber(d: Date): int {
    NewYear(d.year) + Before(d.year, d.month) + d.day - 1
  }

  function SecondOfDay(t: Time): int {
    t.hour * 3600 + t.min * 60 + t.sec
  }

  /** The instant a date and time name, in any year. */
  function Instant(dt: DateTime): int {
    DayNumber(dt.date) * 86400 + SecondOfDay(dt.time)
  }

  predicate DateBefore(a: Date, b: Date) {
    || a.year < b.year
    || (a.year == b.year && (a.month < b.month || (a.month == b.month && a.day < b.day)))
  }

  predicate TimeBefore(a: Time, b: Time) {
    || a.hour < b.hour
    || (a.hour == b.hour && (a.min < b.min || (a.min == b.min && a.sec < b.sec)))
  }

  /** Lexicographic calendar order. */
  predicate Earlier(a: DateTime, b: DateTime) {
    DateBefore(a.date, b.date) || (a.date == b.date && TimeBefore(a.time, b.time))
  }

  // ---------------------------------------------------------------- years

  lemma Divides(y: int)
    ensures IntMod(y, 4) == 0 <==> y % 4 == 0
    ensures IntMod(y, 100) == 0 <==> y % 100 == 0
    ensures IntMod(y, 400) == 0 <==> y % 400 == 0
  {
    NegatedDivides(y, 4);
    NegatedDivides(y, 100);
    NegatedDivides(y, 400);
  }

  lemma NegatedDivides(y: int, b: int)
    requires b == 4 || b == 100 || b == 400
    ensures (-y) % b == 0 <==> y % b == 0
  {
  }

  lemma LeapIs(y: int)
    ensures IsLeap(y) <==> LeapYear(y)
  {
    Divides(y);
    Multiples(y);
  }

  lemma Multiples(y: int)
    ensures y % 400 == 0 ==> y % 100 == 0
    ensures y % 100 == 0 ==> y % 4 == 0
  {
    if y % 400 == 0 {
      Hundreds(y / 400);
    }
    if y % 100 == 0 {
      Fours(y / 100);
    }
  }

  lemma Hundreds(q: int)
    ensures (400 * q) % 100 == 0
  {
  }

  lemma Fours(q: int)
    ensures (100 * q) % 4 == 0
  {
  }

  /** The source's month lengths are the calendar's. */
  lemma DaysInMonthIs(y: int, m: int)
    requires m >= 1
    ensures DaysInMonth(y, m) == MonthLen(y, m)
  {
    LeapIs(y);
  }

  lemma BeforeStep(y: int, m: int)
    requires m >= 1
    ensures Before(y, m + 1) == Before(y, m) + MonthLen(y, m)
  {
  }

  lemma YearStep(y: int)
    ensures NewYear(y + 1) == NewYear(y) + YearLen(y)
  {
    LeapIs(y);
    Multiples(y);
    QuotientStep(y, 4);
    QuotientStep(y, 100);
    QuotientStep(y, 400);
  }

  lemma QuotientStep(y: int, c: int)
    requires c == 4 || c == 100 || c == 400
    ensures y / c == (y - 1) / c + if y % c == 0 then 1 else 0
  {
  }

  /** The closed-form leap count is right from year 1 on, and misses at least one day
      before that. */
  lemma YearToDaysIs(y: int)
    ensures y >= 1 ==> YearToDays(y) == NewYear(y)
    ensures y <= 0 ==> YearToDays(y) >= NewYear(y) + 1
    ensures y <= 0 ==> YearToDays(y + 1) == YearToDays(y) + 365
  {
  }

  lemma {:induction false} MonthSumIs(y: int, m: int, mi: int, acc: int)
    requires 1 <= mi
    ensures mi <= m ==> MonthSum(y, m, mi, acc) == acc + Before(y, m) - Before(y, mi)
    ensures mi > m ==> MonthSum(y, m, mi, acc) == acc
    decreases m - mi
  {
    if mi < m {
      DaysInMonthIs(y, mi);
      BeforeStep(y, mi);
      MonthSumIs(y, m, mi + 1, acc + DaysInMonth(y, mi));
    }
  }

  lemma WholeYear(y: int)
    ensures Before(y, 13) == YearLen(y)
  {
    LeapIs(y);
  }

  lemma {:induction false} BeforeMono(y: int, m: int, k: int)
    requires 1 <= m <= k
    ensures Before(y, m) <= Before(y, k)
    ensures m < k ==> Before(y, m) + MonthLen(y, m) <= Before(y, k)
    decreases k
  {
    if m < k {
      BeforeStep(y, k - 1);
      BeforeMono(y, m, k - 1);
    }
  }

  lemma {:induction false} NewYearMono(y: int, z: int)
    requires y <= z
    ensures NewYear(y) <= NewYear(z)
    ensures y < z ==> NewYear(y) + YearLen(y) <= NewYear(z)
    decreases z - y
  {
    if y < z {
      NewYearMono(y, z - 1);
      YearStep(z - 1);
    }
  }

  /** The day of the year of a valid date lies in its year. */
  lemma DayOfYear(d: Date)
    requires ValidDate(d)
    ensures 0 <= Before(d.year, d.month) + d.day - 1 < YearLen(d.year)
  {
    BeforeMono(d.year, 1, d.month);
    BeforeMono(d.year, d.month, 13);
    WholeYear(d.year);
  }

  lemma DayNumberMono(a: Date, b: Date)
    requires ValidDate(a) && ValidDate(b) && DateBefore(a, b)
    ensures DayNumber(a) < DayNumber(b)
  {
    DayOfYear(a);
    DayOfYear(b);
    if a.year < b.year {
      NewYearMono(a.year, b.year);
    } else if a.month < b.month {
      BeforeMono(a.year, a.month, b.month);
    }
  }

  lemma DayNumberInjective(a: Date, b: Date)
    requires ValidDate(a) && ValidDate(b) && DayNumber(a) == DayNumber(b)
    ensures a == b
  {
    if DateBefore(a, b) { DayNumberMono(a, b); }
    if DateBefore(b, a) { DayNumberMono(b, a); }
  }

  // ---------------------------------------------------------------- the searches

  lemma {:induction false} FindYearFwdIs(y: int, rem: int)
    requires rem >= 0
    ensures var (yr, doy) := FindYearFwd(y, rem);
            NewYear(yr) + doy == NewYear(y) + rem && 0 <= doy < YearLen(yr)
    decreases rem
  {
    if rem >= YearLen(y) {
      YearStep(y);
      FindYearFwdIs(y + 1, rem - YearLen(y));
    }
  }

  lemma {:induction false} FindYearBwdIs(y: int, negRem: int)
    requires negRem < 0
    ensures var (yr, doy) := FindYearBwd(y, negRem);
            NewYear(yr) + doy == NewYear(y) + negRem && 0 <= doy < YearLen(yr)
    decreases -negRem
  {
    YearStep(y - 1);
    if negRem + YearLen(y - 1) < 0 {
      FindYearBwdIs(y - 1, negRem + YearLen(y - 1));
    }
  }

  lemma {:induction false} FindMonthIs(yr: int, m: int, rem: int)
    requires 1 <= m <= 12 && rem >= 0 && Before(yr, m) + rem < YearLen(yr)
    ensures var (mo, da) := FindMonth(yr, m, rem);
            m <= mo <= 12 && 1 <= da <= MonthLen(yr, mo) && Before(yr, mo) + da - 1 == Before(yr, m) + rem
    decreases rem
  {
    DaysInMonthIs(yr, m);
    if rem >= MonthLen(yr, m) {
      BeforeStep(yr, m);
      if m == 12 { WholeYear(yr); }
      FindMonthIs(yr, m + 1, rem - MonthLen(yr, m));
    }
  }

  /** Walking years and months from 1970 finds the valid date with that day number, in
      either direction and over any distance. */
  lemma DaysToDateIs(days: int)
    ensures ValidDate(DaysToDate(days)) && DayNumber(DaysToDate(days)) == days
  {
    assert NewYear(1970) == 0;
    if days >= 0 { FindYearFwdIs(1970, days); } else { FindYearBwdIs(1970, days); }
    var (yr, doy) := if days >= 0 then FindYearFwd(1970, days) else FindYearBwd(1970, days);
    FindMonthIs(yr, 1, doy);
  }

  lemma DateToDaysIs(d: Date)
    requires d.month >= 1
    ensures d.year >= 1 ==> DateToDays(d) == DayNumber(d)
    ensures d.year <= 0 ==> DateToDays(d) >= DayNumber(d) + 1
  {
    YearToDaysIs(d.year);
    MonthSumIs(d.year, d.month, 1, 0);
  }

  // ---------------------------------------------------------------- timestamps

  /** 0001-01-01 00:00:00 UTC. */
  const FIRST := -62135596800

  lemma FirstDay(d: Date)
    requires ValidDate(d)
    ensures d.year >= 1 <==> DayNumber(d) >= -719162
  {
    assert NewYear(1) == -719162;
    DayOfYear(d);
    if d.year >= 1 { NewYearMono(1, d.year); } else { NewYearMono(d.year, 1); }
  }

  lemma ClockSplit(secs: int)
    requires 0 <= secs < 86400
    ensures var t := Time(IntDiv(secs, 3600), IntDiv(IntMod(secs, 3600), 60), IntMod(secs, 60));
            ValidTime(t) && SecondOfDay(t) == secs
  {
    var h, r := secs / 3600, secs % 3600;
    assert secs == 3600 * h + r;
    assert r == 60 * (r / 60) + r % 60;
    assert secs % 60 == r % 60;
  }

  lemma ClockUnique(a: Time, b: Time)
    requires ValidTime(a) && ValidTime(b)
    ensures 0 <= SecondOfDay(a) < 86400
    ensures SecondOfDay(a) == SecondOfDay(b) <==> a == b
    ensures SecondOfDay(a) < SecondOfDay(b) <==> TimeBefore(a, b)
  {
  }

  /** Every timestamp, however far back, becomes the valid date and time of its instant. */
  lemma FromTimestampIs(ts: int)
    ensures Valid(FromTimestamp(ts)) && Instant(FromTimestamp(ts)) == ts
  {
    DaysToDateIs(ts / 86400);
    ClockSplit(ts % 86400);
    assert ts == (ts / 86400) * 86400 + ts % 86400;
  }

  lemma InstantUnique(a: DateTime, b: DateTime)
    requires Valid(a) && Valid(b) && Instant(a) == Instant(b)
    ensures a == b
  {
    ClockUnique(a.time, b.time);
    ClockUnique(b.time, a.time);
    DayNumberInjective(a.date, b.date);
  }

  lemma ToTimestampIs(dt: DateTime)
    requires Valid(dt)
    ensures dt.date.year >= 1 ==> ToTimestamp(dt) == Instant(dt)
    ensures dt.date.year <= 0 ==> ToTimestamp(dt) >= Instant(dt) + 86400
    ensures dt.date.year >= 1 <==> Instant(dt) >= FIRST
  {
    DateToDaysIs(dt.date);
    FirstDay(dt.date);
    ClockUnique(dt.time, dt.time);
  }

  /** Timestamp to calendar and back is the identity exactly from 0001-01-01 on. */
  lemma TimestampRoundTrip(ts: int)
    ensures ToTimestamp(FromTimestamp(ts)) == ts <==> ts >= FIRST
    ensures ts < FIRST ==> ToTimestamp(FromTimestamp(ts)) >= ts + 86400
  {
    FromTimestampIs(ts);
    ToTimestampIs(FromTimestamp(ts));
  }

  /** Calendar to timestamp and back is the identity exactly from year 1 on. */
  lemma CalendarRoundTrip(dt: DateTime)
    requires Valid(dt)
    ensures FromTimestamp(ToTimestamp(dt)) == dt <==> dt.date.year >= 1
  {
    ToTimestampIs(dt);
    FromTimestampIs(ToTimestamp(dt));
    if dt.date.year >= 1 {
      InstantUnique(FromTimestamp(ToTimestamp(dt)), dt);
    }
  }

  // ---------------------------------------------------------------- order

  predicate NewYearsEve(d: Date) {
    d.month == 12 && d.day == 31
  }

  predicate NewYearsDay(d: Date) {
    d.month == 1 && d.day == 1
  }

  /** The last day of an early leap year and the first day of the next get one number. */
  predicate Collide(a: DateTime, b: DateTime) {
    && a.date.year <= 0 && LeapYear(a.date.year) && b.date.year == a.date.year + 1
    && NewYearsEve(a.date) && NewYearsDay(b.date) && !TimeBefore(a.time, b.time)
  }

  lemma {:induction false} YearToDaysMono(y: int, z: int)
    requires y < z
    ensures YearToDays(y) + 365 <= YearToDays(z)
    ensures y + 1 < z ==> YearToDays(y) + 730 <= YearToDays(z)
    ensures y >= 1 ==> YearToDays(y) + YearLen(y) <= YearToDays(z)
    decreases z - y
  {
    YearToDaysIs(z - 1);
    YearToDaysIs(z);
    YearToDaysIs(y);
    YearStep(z - 1);
    if y < z - 1 { YearToDaysMono(y, z - 1); }
  }

  lemma LastDay(d: Date)
    requires ValidDate(d)
    ensures Before(d.year, d.month) + d.day - 1 == 365 <==> LeapYear(d.year) && NewYearsEve(d)
    ensures Before(d.year, d.month) + d.day - 1 == 0 <==> NewYearsDay(d)
  {
    WholeYear(d.year);
    BeforeMono(d.year, d.month, 13);
    BeforeMono(d.year, 1, d.month);
    if d.month < 12 { BeforeMono(d.year, d.month, 12); }
    if d.month > 1 { BeforeMono(d.year, 2, d.month); }
  }

  lemma DateToDaysOrder(a: Date, b: Date)
    requires ValidDate(a) && ValidDate(b) && DateBefore(a, b)
    ensures DateToDays(a) <= DateToDays(b)
    ensures DateToDays(a) == DateToDays(b) <==>
              a.year <= 0 && LeapYear(a.year) && b.year == a.year + 1 && NewYearsEve(a) && NewYearsDay(b)
  {
    MonthSumIs(a.year, a.month, 1, 0);
    MonthSumIs(b.year, b.month, 1, 0);
    DayOfYear(a);
    DayOfYear(b);
    if a.year == b.year {
      if a.month < b.month { BeforeMono(a.year, a.month, b.month); }
    } else {
      YearToDaysMono(a.year, b.year);
      YearToDaysIs(a.year);
      LastDay(a);
      LastDay(b);
    }
  }

  /** `to_timestamp` respects calendar order, strictly, for every pair of valid dates but
      the colliding ones, all of which lie in year 0 or before. */
  lemma TimestampOrder(a: DateTime, b: DateTime)
    requires Valid(a) && Valid(b) && Earlier(a, b)
    ensures ToTimestamp(a) < ToTimestamp(b) <==> !Collide(a, b)
  {
    ClockUnique(a.time, b.time);
    ClockUnique(b.time, a.time);
    if DateBefore(a.date, b.date) {
      DateToDaysOrder(a.date, b.date);
    }
  }

  /** From year 1 on, `compare` is exactly calendar order. */
  lemma CompareIsOrder(a: DateTime, b: DateTime)
    requires Valid(a) && Valid(b) && a.date.year >= 1 && b.date.year >= 1
    ensures Compare(a, b) == if Earlier(a, b) then -1 else if Earlier(b, a) then 1 else 0
    ensures Compare(a, b) == 0 <==> a == b
  {
    if Earlier(a, b) {
      TimestampOrder(a, b);
    } else if Earlier(b, a) {
      TimestampOrder(b, a);
    }
  }

  // ---------------------------------------------------------------- zones

  lemma LocalTrip(l: LocalDateTime, wall: int) returns (back: int)
    requires wall == ToTimestamp(l.civil)
    ensures back == LocalToTimestamp(l)
    ensures back == wall - l.tz.offset <==> wall - l.tz.offset >= FIRST
    ensures wall - l.tz.offset < FIRST ==> back >= wall - l.tz.offset + 86400
  {
    back := ToTimestamp(FromTimestamp(wall - l.tz.offset));
    TimestampRoundTrip(wall - l.tz.offset);
  }

  lemma LocalMade(t: int, tz: Tz) returns (l: LocalDateTime, wall: int)
    ensures l == LocalFromTimestamp(t, tz) && l.tz == tz && wall == ToTimestamp(l.civil)
    ensures wall == t + tz.offset <==> t + tz.offset >= FIRST
    ensures t + tz.offset < FIRST ==> wall >= t + tz.offset + 86400
  {
    l := LocalFromTimestamp(t, tz);
    wall := ToTimestamp(FromTimestamp(t + tz.offset));
    TimestampRoundTrip(t + tz.offset);
  }

  lemma TwoTrips(t: int, offset: int, wall: int, back: int)
    requires wall == t + offset <==> t + offset >= FIRST
    requires t + offset < FIRST ==> wall >= t + offset + 86400
    requires back == wall - offset <==> wall - offset >= FIRST
    requires wall - offset < FIRST ==> back >= wall - offset + 86400
    ensures back == t <==> t >= FIRST && t + offset >= FIRST
  {
  }

  /** Rendering an instant in another zone keeps the instant exactly when neither the
      instant nor the new wall clock falls before 0001-01-01. */
  lemma WithZoneKeepsInstant(ldt: LocalDateTime, tz: Tz)
    ensures var t := LocalToTimestamp(ldt);
            LocalToTimestamp(LocalWithZone(ldt, tz)) == t <==> t >= FIRST && t + tz.offset >= FIRST
  {
    var t := LocalToTimestamp(ldt);
    var l, wall := LocalMade(t, tz);
    var back := LocalTrip(l, wall);
    TwoTrips(t, tz.offset, wall, back);
  }
}
