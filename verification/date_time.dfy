/**
 Calendar conversion (datetime.c): timestamps count seconds from 1 January 1970.
 */
module DateTimes {

  const SECONDS_PER_MINUTE: nat := 60
  const SECONDS_PER_HOUR: nat := 3600
  const SECONDS_PER_DAY: nat := 86400
  const EPOCH_START_YEAR: nat := 1970
  const LAST_YEAR: nat := 2038             // the int product of datetime_to_timestamp overflows from 2039 on
  const LAST_COUNTED: nat := 2306          // the eight-bit counter of common years wraps in 2307
  const INT_MAX: nat := 0x7FFF_FFFF
  const U32: nat := 0x1_0000_0000

  datatype DateTime = DateTime(year: nat, month: nat, day: nat, hour: nat, minute: nat, second: nat, weekday: nat)

  predicate IsLeapYear(year: nat) {
    (year % 4 == 0 && year % 100 != 0) || year % 400 == 0
  }

  function DaysPerYear(year: nat): nat {
    if IsLeapYear(year) then 366 else 365
  }

  /** The month table. */
  function DaysPerMonth(leap: bool, month: nat): nat
    requires 1 <= month <= 12
  {
    [31, if leap then 29 else 28, 31, 30, 31, 30, 31, 31, 30, 31, 30, 31][month - 1]
  }

  // ---------- The calendar ----------

  function DaysBeforeYear(year: nat): nat {
    if year <= EPOCH_START_YEAR then 0 else DaysBeforeYear(year - 1) + DaysPerYear(year - 1)
  }

  function DaysBeforeMonth(leap: bool, month: nat): nat
    requires month <= 13
  {
    if month <= 1 then 0 else DaysBeforeMonth(leap, month - 1) + DaysPerMonth(leap, month - 1)
  }

  /** A date and time that exists, from 1970 on. */
  predicate Real(t: DateTime) {
    && t.year >= EPOCH_START_YEAR && 1 <= t.month <= 12
    && 1 <= t.day <= DaysPerMonth(IsLeapYear(t.year), t.month)
    && t.hour < 24 && t.minute < 60 && t.second < 60
  }

  function DayNumber(t: DateTime): int
    requires t.month <= 13
  {
    DaysBeforeYear(t.year) + DaysBeforeMonth(IsLeapYear(t.year), t.month) + t.day - 1
  }

  /** Seconds since the epoch. */
  function Seconds(t: DateTime): int
    requires t.month <= 13
  {
    DayNumber(t) * SECONDS_PER_DAY + t.hour * SECONDS_PER_HOUR + t.minute * SECONDS_PER_MINUTE + t.second
  }

  function WeekdayOf(dayNumber: nat): nat {
    (dayNumber + 3) % 7 + 1
  }

  /** Where each month begins, apart from the month table: the months from March on follow the pattern
      31, 30, 31, 30, 31 twice over, and then begin it again. */
  lemma {:induction false} MonthStarts(leap: bool, month: nat)
    requires 1 <= month <= 13
    ensures DaysBeforeMonth(leap, month)
         == if month == 1 then 0
            else if month == 2 then 31
            else (153 * (month - 3) + 2) / 5 + 59 + if leap then 1 else 0
  {
    if month > 1 {
      MonthStarts(leap, month - 1);
    }
  }

  /** The months of a year add up to its days. */
  lemma {:induction false} MonthsFillYear(leap: bool, month: nat)
    requires 1 <= month <= 13
    ensures DaysBeforeMonth(leap, 13) == if leap then 366 else 365
    ensures DaysBeforeMonth(leap, month) <= DaysBeforeMonth(leap, 13)
    ensures month <= 12 ==> DaysBeforeMonth(leap, month) + DaysPerMonth(leap, month) <= DaysBeforeMonth(leap, 13)
  {
    var f := if leap then 1 else 0;
    assert DaysBeforeMonth(leap, 1) == 0 && DaysBeforeMonth(leap, 2) == 31 && DaysBeforeMonth(leap, 3) == 59 + f;
    assert DaysBeforeMonth(leap, 4) == 90 + f && DaysBeforeMonth(leap, 5) == 120 + f;
    assert DaysBeforeMonth(leap, 6) == 151 + f && DaysBeforeMonth(leap, 7) == 181 + f;
    assert DaysBeforeMonth(leap, 8) == 212 + f && DaysBeforeMonth(leap, 9) == 243 + f;
    assert DaysBeforeMonth(leap, 10) == 273 + f && DaysBeforeMonth(leap, 11) == 304 + f;
    assert DaysBeforeMonth(leap, 12) == 334 + f && DaysBeforeMonth(leap, 13) == 365 + f;
    MonthsMono(leap, month, 13);
    if month <= 12 {
      MonthsMono(leap, month + 1, 13);
    }
  }

  lemma {:induction false} MonthsMono(leap: bool, a: nat, b: nat)
    requires 1 <= a <= b <= 13
    ensures DaysBeforeMonth(leap, a) <= DaysBeforeMonth(leap, b)
    ensures a < b ==> DaysBeforeMonth(leap, a) + DaysPerMonth(leap, a) <= DaysBeforeMonth(leap, b)
    decreases b
  {
    if a < b {
      MonthsMono(leap, a, b - 1);
    }
  }

  lemma {:induction false} YearsMono(a: nat, b: nat)
    requires EPOCH_START_YEAR <= a <= b
    ensures DaysBeforeYear(a) <= DaysBeforeYear(b)
    ensures a < b ==> DaysBeforeYear(a) + DaysPerYear(a) <= DaysBeforeYear(b)
    decreases b
  {
    if a < b {
      YearsMono(a, b - 1);
    }
  }

  /** The year count is the closed form of section 4.16 of POSIX.1-2017 (with years counted from 0). */
  lemma {:induction false} PosixYears(year: nat)
    requires year >= EPOCH_START_YEAR
    ensures DaysBeforeYear(year) == 365 * (year - 1970) + (year - 1969) / 4 - (year - 1901) / 100 + (year - 1601) / 400
  {
    if year > EPOCH_START_YEAR {
      PosixYears(year - 1);
      LeapYearDays(year - 1);
    }
  }

  /** One more year adds what the three quotients of the closed form gain. */
  lemma {:induction false} LeapYearDays(y: nat)
    requires y >= 1970
    ensures DaysPerYear(y) == 365 + ((y - 1968) / 4 - (y - 1969) / 4) - ((y - 1900) / 100 - (y - 1901) / 100)
                            + ((y - 1600) / 400 - (y - 1601) / 400)
  {
    LeapSteps(y);
  }

  lemma {:induction false} LeapSteps(y: nat)
    requires y >= 1970
    ensures (y - 1968) / 4 == (y - 1969) / 4 + if y % 4 == 0 then 1 else 0
    ensures (y - 1900) / 100 == (y - 1901) / 100 + if y % 100 == 0 then 1 else 0
    ensures (y - 1600) / 400 == (y - 1601) / 400 + if y % 400 == 0 then 1 else 0
    ensures y % 400 == 0 ==> y % 100 == 0
    ensures y % 100 == 0 ==> y % 4 == 0
  {
    LeapStep4(y);
    LeapStep100(y);
    LeapStep400(y);
  }

  lemma {:induction false} LeapStep4(y: nat)
    requires y >= 1970
    ensures (y - 1968) / 4 == (y - 1969) / 4 + if y % 4 == 0 then 1 else 0
  {
  }

  lemma {:induction false} LeapStep100(y: nat)
    requires y >= 1970
    ensures (y - 1900) / 100 == (y - 1901) / 100 + if y % 100 == 0 then 1 else 0
    ensures y % 100 == 0 ==> y % 4 == 0
  {
    assert y == 100 * (y / 100) + y % 100;
  }

  lemma {:induction false} LeapStep400(y: nat)
    requires y >= 1970
    ensures (y - 1600) / 400 == (y - 1601) / 400 + if y % 400 == 0 then 1 else 0
    ensures y % 400 == 0 ==> y % 100 == 0
  {
    assert y == 400 * (y / 400) + y % 400;
  }

  // ---------- Order ----------

  function Clock(t: DateTime): nat {
    t.hour * SECONDS_PER_HOUR + t.minute * SECONDS_PER_MINUTE + t.second
  }

  predicate Earlier(a: DateTime, b: DateTime) {
    || a.year < b.year
    || (a.year == b.year && a.month < b.month)
    || (a.year == b.year && a.month == b.month && a.day < b.day)
    || (a.year == b.year && a.month == b.month && a.day == b.day && Clock(a) < Clock(b))
  }

  lemma {:induction false} DayOrder(a: DateTime, b: DateTime)
    requires Real(a) && Real(b)
    requires a.year < b.year || (a.year == b.year && a.month < b.month)
             || (a.year == b.year && a.month == b.month && a.day < b.day)
    ensures DayNumber(a) < DayNumber(b)
  {
    MonthsFillYear(IsLeapYear(a.year), a.month);
    if a.year < b.year {
      YearsMono(a.year, b.year);
    } else if a.month < b.month {
      MonthsMono(IsLeapYear(a.year), a.month, b.month);
    }
  }

  /** Conversion preserves order. */
  lemma {:induction false} OrderPreserved(a: DateTime, b: DateTime)
    requires Real(a) && Real(b)
    ensures Earlier(a, b) <==> Seconds(a) < Seconds(b)
  {
    if Earlier(a, b) {
      EarlierFirst(a, b);
    } else if Earlier(b, a) {
      EarlierFirst(b, a);
    } else {
      SameDay(a, b);
    }
  }

  lemma {:induction false} EarlierFirst(a: DateTime, b: DateTime)
    requires Real(a) && Real(b) && Earlier(a, b)
    ensures Seconds(a) < Seconds(b)
  {
    hide DayNumber;
    if a.year == b.year && a.month == b.month && a.day == b.day {
      SameDay(a, b);
    } else {
      DayOrder(a, b);
    }
  }

  lemma {:induction false} SameDay(a: DateTime, b: DateTime)
    requires a.month <= 13 && a.year == b.year && a.month == b.month && a.day == b.day
    ensures DayNumber(a) == DayNumber(b)
  {
  }

  /** Different moments have different timestamps. */
  lemma {:induction false} SecondsInjective(a: DateTime, b: DateTime)
    requires Real(a) && Real(b)
    ensures Seconds(a) == Seconds(b) <==> a == b.(weekday := a.weekday)
  {
    OrderPreserved(a, b);
    OrderPreserved(b, a);
    if Seconds(a) == Seconds(b) {
      hide Seconds;
      assert !Earlier(a, b) && !Earlier(b, a);
      ClockInjective(a, b);
    }
  }

  lemma {:induction false} ClockInjective(a: DateTime, b: DateTime)
    requires a.minute < 60 && b.minute < 60 && a.second < 60 && b.second < 60 && Clock(a) == Clock(b)
    ensures a.hour == b.hour && a.minute == b.minute && a.second == b.second
  {
    var x, y := 60 * a.hour + a.minute, 60 * b.hour + b.minute;
    assert 60 * x + a.second == 60 * y + b.second;
    assert x == y;
  }

  // ---------- The conversions ----------

  /** A timestamp, or undefined behaviour: a signed product beyond INT_MAX, or a month past the table. */
  datatype Conversion = Timestamp(value: nat) | Undefined

  /** What the fields of a DateTime can hold. */
  predicate Stored(t: DateTime) {
    && t.year < 0x1_0000 && t.month < 256 && t.day < 256 && t.hour < 256 && t.minute < 256 && t.second < 256
  }

  /** datetime_datetime_to_timestamp. Days outside the calendar are only counted through. */
  method ToTimestamp(t: DateTime) returns (r: Conversion)
    requires Stored(t)
    ensures r == Undefined <==> t.month > 13 || CountedDays(t.year) * SECONDS_PER_DAY > INT_MAX
    ensures r == Undefined && t.month <= 13 ==> t.year > LAST_YEAR
    ensures LAST_YEAR < t.year <= LAST_COUNTED ==> r == Undefined
    ensures t.year <= LAST_YEAR && t.month <= 13 ==> r == Timestamp(Seconds(t) % U32)
    ensures t.year <= LAST_YEAR && Real(t) ==> r == Timestamp(Seconds(t))
  {
    hide Seconds, DayNumber, DaysBeforeYear, CountedDays;
    var days := CountYears(t.year);
    ProductRange(t.year);
    if days * SECONDS_PER_DAY > INT_MAX {
      return Undefined;
    }
    var timestamp := days * SECONDS_PER_DAY;
    var leap := IsLeapYear(t.year);
    var m := 1;
    while m < t.month
      invariant 1 <= m <= 13 && (m <= t.month || m == 1)
      invariant timestamp == (days + DaysBeforeMonth(leap, m)) * SECONDS_PER_DAY
    {
      if m > 12 {
        return Undefined;
      }
      timestamp := timestamp + DaysPerMonth(leap, m) * SECONDS_PER_DAY;
      m := m + 1;
    }
    assert DaysBeforeMonth(leap, m) == DaysBeforeMonth(leap, t.month);
    if t.year <= LAST_YEAR {
      SecondsIs(t, days);
      if Real(t) {
        InRange(t);
      }
    }
    hide DaysBeforeMonth;
    timestamp := (timestamp + (t.day - 1) * SECONDS_PER_DAY + t.hour * SECONDS_PER_HOUR
                  + t.minute * SECONDS_PER_MINUTE + t.second) % U32;
    r := Timestamp(timestamp);
  }

  lemma {:induction false} NextByte(n: nat)
    ensures (n % 256 + 1) % 256 == (n + 1) % 256
  {
  }

  function CommonYears(year: nat): nat {
    if year <= EPOCH_START_YEAR then 0 else CommonYears(year - 1) + if IsLeapYear(year - 1) then 0 else 1
  }

  function LeapYears(year: nat): nat {
    if year <= EPOCH_START_YEAR then 0 else LeapYears(year - 1) + if IsLeapYear(year - 1) then 1 else 0
  }

  /** The days the year loop counts, with its eight-bit counters. */
  function CountedDays(year: nat): nat {
    CommonYears(year) % 256 * 365 + LeapYears(year) % 256 * 366
  }

  lemma {:induction false} YearCounts(year: nat)
    ensures CommonYears(year) * 365 + LeapYears(year) * 366 == DaysBeforeYear(year)
    ensures year >= EPOCH_START_YEAR ==> CommonYears(year) + LeapYears(year) == year - EPOCH_START_YEAR
  {
    hide IsLeapYear;
    if year > EPOCH_START_YEAR {
      YearCounts(year - 1);
    }
  }

  lemma {:induction false} CommonMono(a: nat, b: nat)
    requires a <= b
    ensures CommonYears(a) <= CommonYears(b)
    ensures LeapYears(a) <= LeapYears(b)
    decreases b
  {
    hide IsLeapYear;
    if a < b {
      CommonMono(a, b - 1);
    }
  }

  lemma {:induction false} EarlyCounts(year: nat)
    requires year <= EPOCH_START_YEAR
    ensures CommonYears(year) == CommonYears(EPOCH_START_YEAR) && LeapYears(year) == LeapYears(EPOCH_START_YEAR)
  {
  }

  lemma {:induction false} LastCounts()
    ensures CommonYears(LAST_COUNTED) == 255 && LeapYears(LAST_COUNTED) == 81 && CommonYears(LAST_COUNTED + 1) == 256
  {
    hide CommonYears, LeapYears, DaysBeforeYear;
    YearCounts(LAST_COUNTED);
    PosixYears(LAST_COUNTED);
    YearCounts(LAST_COUNTED + 1);
    PosixYears(LAST_COUNTED + 1);
  }

  /** The counters hold every year up to LAST_COUNTED and no later one. */
  lemma {:induction false} CountersHold(year: nat)
    ensures CommonYears(year) < 256 && LeapYears(year) < 256 <==> year <= LAST_COUNTED
  {
    hide CommonYears, LeapYears;
    LastCounts();
    if year <= LAST_COUNTED {
      CommonMono(year, LAST_COUNTED);
    } else {
      CommonMono(LAST_COUNTED + 1, year);
    }
  }

  lemma {:induction false} CountedExactly(year: nat)
    ensures CountedDays(year) == DaysBeforeYear(year) <==> year <= LAST_COUNTED
  {
    YearCounts(year);
    CountersHold(year);
    hide CommonYears, LeapYears, DaysBeforeYear;
    var c, l := CommonYears(year), LeapYears(year);
    assert c == 256 * (c / 256) + c % 256 && l == 256 * (l / 256) + l % 256;
  }

  /** The signed product is in range exactly up to 2038, as long as the counters hold. */
  lemma {:induction false} ProductRange(year: nat)
    ensures year <= LAST_YEAR ==> CountedDays(year) == DaysBeforeYear(year) && CountedDays(year) * SECONDS_PER_DAY <= INT_MAX
    ensures LAST_YEAR < year <= LAST_COUNTED ==> CountedDays(year) * SECONDS_PER_DAY > INT_MAX
  {
    CountedExactly(year);
    hide CountedDays;
    PosixYears(LAST_YEAR);
    PosixYears(LAST_YEAR + 1);
    EarlyYears(year);
    hide DaysBeforeYear;
    if EPOCH_START_YEAR <= year <= LAST_YEAR {
      YearsMono(year, LAST_YEAR);
    } else if year > LAST_YEAR {
      YearsMono(LAST_YEAR + 1, year);
    }
  }

  /** The loop over years: common and leap years are counted apart, in eight bits, which is the true number
      of days if and only if the year is at most 2306. */
  method CountYears(year: nat) returns (days: nat)
    requires year < 0x1_0000
    ensures days == CountedDays(year)
    ensures days == DaysBeforeYear(year) <==> year <= LAST_COUNTED
  {
    hide IsLeapYear, DaysBeforeYear;
    var years, leapYears := 0, 0;
    var y := EPOCH_START_YEAR;
    while y < year
      invariant EPOCH_START_YEAR <= y && (y <= year || y == EPOCH_START_YEAR)
      invariant years == CommonYears(y) % 256 && leapYears == LeapYears(y) % 256
    {
      if IsLeapYear(y) {
        NextByte(LeapYears(y));
        leapYears := (leapYears + 1) % 256;
      } else {
        NextByte(CommonYears(y));
        years := (years + 1) % 256;
      }
      y := y + 1;
    }
    if year <= EPOCH_START_YEAR {
      EarlyCounts(year);
    }
    days := years * 365 + leapYears * 366;
    hide CommonYears, LeapYears;
    CountedExactly(year);
  }

  lemma {:induction false} EarlyYears(year: nat)
    ensures year <= EPOCH_START_YEAR ==> DaysBeforeYear(year) == 0
  {
  }

  lemma {:induction false} SecondsIs(t: DateTime, days: nat)
    requires t.month <= 13 && days == DaysBeforeYear(t.year)
    ensures Seconds(t) == (days + DaysBeforeMonth(IsLeapYear(t.year), t.month)) * SECONDS_PER_DAY
                          + (t.day - 1) * SECONDS_PER_DAY + t.hour * SECONDS_PER_HOUR
                          + t.minute * SECONDS_PER_MINUTE + t.second
  {
    hide DaysBeforeYear, DaysBeforeMonth;
  }

  /** Every real date up to the last year fits 32 bits. */
  lemma {:induction false} InRange(t: DateTime)
    requires Real(t) && t.year <= LAST_YEAR
    ensures 0 <= Seconds(t) < U32
  {
    YearsMono(t.year, LAST_YEAR + 1);
    PosixYears(LAST_YEAR + 1);
    MonthsFillYear(IsLeapYear(t.year), t.month);
    YearsMono(t.year, t.year + 1);
    hide DaysBeforeYear, DaysBeforeMonth, IsLeapYear;
    assert DayNumber(t) < DaysBeforeYear(LAST_YEAR + 1) == 25202;
  }

  /** datetime_timestamp_to_datetime, for every 32-bit timestamp. */
  method FromTimestamp(timestamp: nat) returns (t: DateTime)
    requires timestamp < U32
    ensures Real(t) && Seconds(t) == timestamp
    ensures t.weekday == WeekdayOf(timestamp / SECONDS_PER_DAY)
  {
    hide Seconds;
    var days: nat := timestamp / SECONDS_PER_DAY;
    var secondsInDay := timestamp % SECONDS_PER_DAY;
    var weekday := (days + 3) % 7 + 1;
    ghost var total := days;
    var year := EPOCH_START_YEAR;
    while days >= DaysPerYear(year)
      invariant year >= EPOCH_START_YEAR && DaysBeforeYear(year) + days == total
      decreases days
    {
      days := days - DaysPerYear(year);
      year := year + 1;
    }
    ghost var left := days;
    var leap := IsLeapYear(year);
    MonthsFillYear(leap, 12);
    var month := 1;
    while days >= DaysPerMonth(leap, month)
      invariant 1 <= month <= 12 && DaysBeforeMonth(leap, month) + days == left
      decreases days
    {
      days := days - DaysPerMonth(leap, month);
      month := month + 1;
      if month == 13 {
        assert false;
      }
    }
    t := DateTime(year, month, days + 1, secondsInDay / SECONDS_PER_HOUR,
                  secondsInDay % SECONDS_PER_HOUR / SECONDS_PER_MINUTE, secondsInDay % SECONDS_PER_MINUTE, weekday);
    SecondsIs(t, DaysBeforeYear(year));
    DayClock(secondsInDay);
  }

  lemma {:induction false} DayClock(s: nat)
    requires s < SECONDS_PER_DAY
    ensures s / SECONDS_PER_HOUR < 24 && s % SECONDS_PER_HOUR / SECONDS_PER_MINUTE < 60
    ensures s == s / SECONDS_PER_HOUR * SECONDS_PER_HOUR
                 + s % SECONDS_PER_HOUR / SECONDS_PER_MINUTE * SECONDS_PER_MINUTE + s % SECONDS_PER_MINUTE
  {
  }

  // ---------- Round trips ----------

  lemma {:induction false} FieldsFit(t: DateTime)
    requires Real(t) && t.year <= LAST_YEAR
    ensures Stored(t) && CountedDays(t.year) * SECONDS_PER_DAY <= INT_MAX
  {
    ProductRange(t.year);
    hide CountedDays;
  }

  /** A timestamp before 2039 survives the trip through a date. */
  method TimestampRoundTrip(timestamp: nat) returns (t: DateTime, back: nat)
    requires timestamp < DaysBeforeYear(LAST_YEAR + 1) * SECONDS_PER_DAY
    ensures back == timestamp && Real(t) && t.year <= LAST_YEAR
  {
    PosixYears(LAST_YEAR + 1);
    hide DaysBeforeYear;
    t := FromTimestamp(timestamp);
    YearBounded(t, timestamp);
    FieldsFit(t);
    var r := ToTimestamp(t);
    back := r.value;
  }

  lemma {:induction false} YearBounded(t: DateTime, timestamp: nat)
    requires Real(t) && Seconds(t) == timestamp && timestamp < DaysBeforeYear(LAST_YEAR + 1) * SECONDS_PER_DAY
    ensures t.year <= LAST_YEAR
  {
    YearFloor(t);
    hide DaysBeforeYear, Seconds;
    if t.year > LAST_YEAR {
      YearsMono(LAST_YEAR + 1, t.year);
    }
  }

  lemma {:induction false} YearFloor(t: DateTime)
    requires Real(t)
    ensures Seconds(t) >= DaysBeforeYear(t.year) * SECONDS_PER_DAY
  {
    hide DaysBeforeYear, DaysBeforeMonth, DaysPerMonth;
    assert DayNumber(t) >= DaysBeforeYear(t.year);
  }

  /** A real date from 1970 through 2038 survives the trip through a timestamp, and comes back with its
      true weekday. */
  method DateRoundTrip(t: DateTime) returns (timestamp: nat, back: DateTime)
    requires Real(t) && t.year <= LAST_YEAR
    ensures back == t.(weekday := WeekdayOf(timestamp / SECONDS_PER_DAY))
    ensures timestamp == Seconds(t)
  {
    InRange(t);
    FieldsFit(t);
    var r := ToTimestamp(t);
    timestamp := r.value;
    back := FromTimestamp(timestamp);
    SecondsInjective(back, t);
  }

  /** The weekday advances by one per day, modulo seven, from a Thursday. */
  lemma {:induction false} WeekdayAdvances(dayNumber: nat)
    ensures WeekdayOf(0) == 4
    ensures WeekdayOf(dayNumber + 1) == WeekdayOf(dayNumber) % 7 + 1
  {
  }
}
