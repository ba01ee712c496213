/**
 The calendar arithmetic of the C library: conversion between day counts and
 Gregorian dates, weekdays, and the pair `gmtime_r`/`timegm`.

 The source works with C integers, whose division truncates toward zero.
 `CDiv` and `CMod` are that division; everything below that divides a
 possibly negative number goes through them.
 */
module Calendar {

  function CDiv(a: int, b: int): int
    requires b > 0
  {
    if a >= 0 then a / b else -((-a) / b)
  }

  function CMod(a: int, b: int): int
    requires b > 0
  {
    a - b * CDiv(a, b)
  }

  const INT_MIN: int := -0x8000_0000
  const INT_MAX: int := 0x7fff_ffff

  datatype Date = Date(year: int, month: int, day: int)

  // ---------------------------------------------------------------- the naive calendar

  predicate IsLeap(year: int) {
    CMod(year, 4) == 0 && (CMod(year, 100) != 0 || CMod(year, 400) == 0)
  }

  function DaysInMonth(year: int, month: int): int {
    if month == 2 then (if IsLeap(year) then 29 else 28)
    else if month == 4 || month == 6 || month == 9 || month == 11 then 30
    else 31
  }

  predicate ValidDate(dt: Date) {
    1 <= dt.month <= 12 && 1 <= dt.day <= DaysInMonth(dt.year, dt.month)
  }

  /** The day after `dt`, by the rules of the Gregorian calendar alone. */
  function NextDay(dt: Date): Date {
    if dt.day < DaysInMonth(dt.year, dt.month) then dt.(day := dt.day + 1)
    else if dt.month < 12 then Date(dt.year, dt.month + 1, 1)
    else Date(dt.year + 1, 1, 1)
  }

  /** The day before `dt`. */
  function PrevDay(dt: Date): Date {
    if dt.day > 1 then dt.(day := dt.day - 1)
    else if dt.month > 1 then Date(dt.year, dt.month - 1, DaysInMonth(dt.year, dt.month - 1))
    else Date(dt.year - 1, 12, 31)
  }

  /** The date `z` days after 1970-01-01, found by stepping one day at a time. */
  function Stepped(z: int): Date
    decreases if z >= 0 then z else -z
  {
    if z == 0 then Date(1970, 1, 1)
    else if z > 0 then NextDay(Stepped(z - 1))
    else PrevDay(Stepped(z + 1))
  }

  // ---------------------------------------------------------------- the source's arithmetic

  /** The 400-year era a shifted day count falls in. */
  function EraOfDays(time: int): int {
    CDiv(if time >= 0 then time else time - 146096, 146097)
  }

  function YearOfEra(doe: int): int {
    (doe - doe / 1460 + doe / 36524 - doe / 146096) / 365
  }

  function CivilFromDays(z: int): (r: Date) {
    var time := z + 719468;
    var era := EraOfDays(time);
    var doe := time - era * 146097;
    var yoe := YearOfEra(doe);
    var y := yoe + era * 400;
    var doy := doe - (365 * yoe + yoe / 4 - yoe / 100);
    var mp := (5 * doy + 2) / 153;
    var d := doy - (153 * mp + 2) / 5 + 1;
    var m := mp + (if mp < 10 then 3 else -9);
    Date(y + (if m <= 2 then 1 else 0), m, d)
  }

  function DaysFromCivil(dt: Date): (r: int) {
    var y := dt.year - (if dt.month <= 2 then 1 else 0);
    var era := CDiv(if y >= 0 then y else y - 399, 400);
    var yoe := y - era * 400;
    var doy := (153 * (if dt.month > 2 then dt.month - 3 else dt.month + 9) + 2) / 5 + dt.day - 1;
    var doe := yoe * 365 + yoe / 4 - yoe / 100 + doy;
    era * 146097 + doe - 719468
  }

  function WeekdayFromDays(z: int): (r: int) {
    if z >= -4 then CMod(z + 4, 7) else CMod(z + 5, 7) + 6
  }

  /** The broken-down time that `gmtime_r` fills in and `timegm` reads. */
  datatype Tm = Tm(sec: int, min: int, hour: int, mday: int, mon: int, year: int, wday: int)

  function GmTime(t: int): (r: Tm) {
    var days := CDiv(t, 86400);
    var dt := CivilFromDays(days);
    Tm(CMod(t, 60), CMod(CDiv(t, 60), 60), CMod(CDiv(t, 3600), 24),
       dt.day, dt.month - 1, dt.year - 1900, WeekdayFromDays(days))
  }

  function TimeGm(tm: Tm): (r: int) {
    DaysFromCivil(Date(tm.year + 1900, tm.mon + 1, tm.mday)) * 86400
    + tm.hour * 3600 + tm.min * 60 + tm.sec
  }

  // ---------------------------------------------------------------- dates within one era

  /** The era's first day to the start of year `yoe`, counted from 1 March. */
  function YearStart(yoe: int): int {
    365 * yoe + yoe / 4 - yoe / 100
  }

  /** Whether the year that starts on 1 March of year `yoe` of an era ends on a 29 February. */
  predicate EndsOnLeapDay(yoe: int) {
    (yoe + 1) % 4 == 0 && ((yoe + 1) % 100 != 0 || yoe == 399)
  }

  predicate YearAndDay(yoe: int, doy: int) {
    0 <= yoe < 400 && 0 <= doy < (if EndsOnLeapDay(yoe) then 366 else 365)
  }

  /** A year of an era as century, four-year cycle and year within the cycle. */
  lemma SplitYear(yoe: int) returns (c: int, q: int, r: int)
    requires 0 <= yoe < 400
    ensures 0 <= c < 4 && 0 <= q < 25 && 0 <= r < 4 && yoe == 100 * c + 4 * q + r
    ensures YearStart(yoe) == 36524 * c + 1461 * q + 365 * r
    ensures EndsOnLeapDay(yoe) <==> r == 3 && (q != 24 || c == 3)
  {
    c, q, r := yoe / 100, yoe % 100 / 4, yoe % 4;
    assert yoe / 4 == 25 * c + q;
  }

  lemma Div146096(a: int, q: int)
    requires 146096 * q <= a < 146096 * q + 146096
    ensures a / 146096 == q
  {
  }

  lemma Div36524(a: int, q: int)
    requires 36524 * q <= a < 36524 * q + 36524
    ensures a / 36524 == q
  {
  }

  lemma Div1460(a: int, q: int)
    requires 1460 * q <= a < 1460 * q + 1460
    ensures a / 1460 == q
  {
  }

  lemma Div365(a: int, q: int)
    requires 365 * q <= a < 365 * q + 365
    ensures a / 365 == q
  {
  }

  /** The division-based year formula finds the year a day belongs to. */
  lemma YearOfEraIsExact(yoe: int, doy: int)
    requires YearAndDay(yoe, doy)
    ensures 0 <= YearStart(yoe) + doy < 146097
    ensures YearOfEra(YearStart(yoe) + doy) == yoe
  {
    hide YearStart, EndsOnLeapDay;
    var c, q, r := SplitYear(yoe);
    YearOfSplit(c, q, r, doy);
  }

  /** The same on the parts of the year: the last day of the era and the last days of four-year cycles are the ones
      where a quotient is one ahead. */
  lemma YearOfSplit(c: int, q: int, r: int, doy: int)
    requires 0 <= c < 4 && 0 <= q < 25 && 0 <= r < 4
    requires 0 <= doy < (if r == 3 && (q != 24 || c == 3) then 366 else 365)
    ensures var doe := 36524 * c + 1461 * q + 365 * r + doy;
            0 <= doe < 146097 && YearOfEra(doe) == 100 * c + 4 * q + r
  {
    hide YearOfEra;
    var doe := 36524 * c + 1461 * q + 365 * r + doy;
    var last := if doe == 146096 then 1 else 0;
    var carry := if 24 * c + q + 365 * r + doy >= 1460 then 1 else 0;
    Div146096(doe, last);
    Div36524(doe, c + last);
    Div1460(doe, 25 * c + q + carry);
    Div365(doe - (25 * c + q + carry) + c, 100 * c + 4 * q + r);
    YearOfEraIs(doe, 25 * c + q + carry, c + last, last);
  }

  lemma YearOfEraIs(doe: int, a: int, b: int, c: int)
    requires doe / 1460 == a && doe / 36524 == b && doe / 146096 == c
    ensures YearOfEra(doe) == (doe - a + b - c) / 365
  {
  }

  /** Every day of an era belongs to a year and a day of that year. */
  lemma DayOfEraSplits(doe: int)
    requires 0 <= doe < 146097
    ensures YearAndDay(YearOfEra(doe), doe - YearStart(YearOfEra(doe)))
  {
    hide YearOfEra, YearStart, EndsOnLeapDay;
    var c, q, r, doy := SplitDay(doe);
    var yoe := 100 * c + 4 * q + r;
    var c', q', r' := SplitYear(yoe);
    SameSplit(c, q, r, c', q', r');
    YearOfSplit(c, q, r, doy);
  }

  lemma SplitDay(doe: int) returns (c: int, q: int, r: int, doy: int)
    requires 0 <= doe < 146097
    ensures 0 <= c < 4 && 0 <= q < 25 && 0 <= r < 4 && doe == 36524 * c + 1461 * q + 365 * r + doy
    ensures 0 <= doy < (if r == 3 && (q != 24 || c == 3) then 366 else 365)
  {
    c := if doe >= 109572 then 3 else if doe >= 73048 then 2 else if doe >= 36524 then 1 else 0;
    var rest := doe - 36524 * c;
    q := rest / 1461;
    var rest4 := rest - 1461 * q;
    r := if rest4 >= 1095 then 3 else if rest4 >= 730 then 2 else if rest4 >= 365 then 1 else 0;
    doy := rest4 - 365 * r;
  }

  lemma SameSplit(c: int, q: int, r: int, c': int, q': int, r': int)
    requires 0 <= q < 25 && 0 <= r < 4 && 0 <= q' < 25 && 0 <= r' < 4
    requires 100 * c + 4 * q + r == 100 * c' + 4 * q' + r'
    ensures c == c' && q == q' && r == r'
  {
  }

  // ---------------------------------------------------------------- months counted from March

  /** The day a month starts on, months being counted from March. */
  function MonthStart(mp: int): int {
    (153 * mp + 2) / 5
  }

  function MarchMonth(month: int): int {
    if month > 2 then month - 3 else month + 9
  }

  /** The length of a month counted from March, in a year that does or does not end on a leap day. */
  function MarchMonthLength(mp: int, leapEnd: bool): int {
    if mp == 11 then (if leapEnd then 29 else 28)
    else if mp == 1 || mp == 3 || mp == 6 || mp == 8 then 30
    else 31
  }

  lemma MonthOfDay(mp: int, d: int, leapEnd: bool)
    requires 0 <= mp < 12 && 1 <= d <= MarchMonthLength(mp, leapEnd)
    ensures 0 <= MonthStart(mp) + d - 1 < (if leapEnd then 366 else 365)
    ensures (5 * (MonthStart(mp) + d - 1) + 2) / 153 == mp
  {
  }

  lemma DayOfMonth(doy: int, leapEnd: bool)
    requires 0 <= doy < (if leapEnd then 366 else 365)
    ensures var mp := (5 * doy + 2) / 153;
            0 <= mp < 12 && 1 <= doy - MonthStart(mp) + 1 <= MarchMonthLength(mp, leapEnd)
  {
  }

  // ---------------------------------------------------------------- eras

  /** The era of a March year: division by 400, rounded down. */
  function EraOfYear(y: int): int {
    CDiv(if y >= 0 then y else y - 399, 400)
  }

  lemma EraOfYearIsFloor(y: int)
    ensures 0 <= y - EraOfYear(y) * 400 < 400
  {
  }

  lemma EraOfDaysIsFloor(time: int)
    ensures 0 <= time - EraOfDays(time) * 146097 < 146097
  {
  }

  lemma LeapModulo(year: int)
    ensures IsLeap(year) <==> year % 4 == 0 && (year % 100 != 0 || year % 400 == 0)
  {
  }

  lemma ModuloOf4(a: int, q: int, r: int)
    requires 0 <= r < 4 && a == 4 * q + r
    ensures a % 4 == r
  {
  }

  lemma ModuloOf100(a: int, q: int, r: int)
    requires 0 <= r < 100 && a == 100 * q + r
    ensures a % 100 == r
  {
  }

  lemma ModuloOf400(a: int, q: int, r: int)
    requires 0 <= r < 400 && a == 400 * q + r
    ensures a % 400 == r
  {
  }

  /** A calendar year is leap exactly when the March year before it ends on a leap day. */
  lemma LeapDayOfEra(y: int, era: int)
    requires 0 <= y - era * 400 < 400
    ensures IsLeap(y + 1) <==> EndsOnLeapDay(y - era * 400)
  {
    hide IsLeap;
    var yoe := y - era * 400;
    LeapModulo(y + 1);
    var n := yoe + 1;
    ModuloOf4(y + 1, 100 * era + n / 4, n % 4);
    ModuloOf100(y + 1, 4 * era + n / 100, n % 100);
    ModuloOf400(y + 1, era + n / 400, n % 400);
  }

  lemma MarchMonthLengthIs(dt: Date, leapEnd: bool)
    requires 1 <= dt.month <= 12
    requires dt.month <= 2 ==> (leapEnd <==> IsLeap(dt.year))
    ensures MarchMonthLength(MarchMonth(dt.month), leapEnd) == DaysInMonth(dt.year, dt.month)
  {
  }

  // ---------------------------------------------------------------- both conversions, in era form

  /** A date in era form: era, March year of the era, March month, day of the month. */
  datatype EraDate = EraDate(era: int, yoe: int, mp: int, day: int)

  predicate ValidEraDate(e: EraDate) {
    && 0 <= e.yoe < 400 && 0 <= e.mp < 12
    && 1 <= e.day <= MarchMonthLength(e.mp, EndsOnLeapDay(e.yoe))
  }

  function DaysOfEraDate(e: EraDate): int {
    e.era * 146097 + YearStart(e.yoe) + MonthStart(e.mp) + e.day - 1 - 719468
  }

  function ToEra(dt: Date): EraDate {
    var y := dt.year - (if dt.month <= 2 then 1 else 0);
    EraDate(EraOfYear(y), y - EraOfYear(y) * 400, MarchMonth(dt.month), dt.day)
  }

  function FromEra(e: EraDate): Date {
    var m := e.mp + (if e.mp < 10 then 3 else -9);
    Date(e.yoe + e.era * 400 + (if m <= 2 then 1 else 0), m, e.day)
  }

  lemma DaysFromCivilInEras(dt: Date)
    ensures DaysFromCivil(dt) == DaysOfEraDate(ToEra(dt))
  {
    hide CDiv;
  }

  lemma ToEraIsValid(dt: Date)
    requires ValidDate(dt)
    ensures ValidEraDate(ToEra(dt)) && FromEra(ToEra(dt)) == dt
  {
    hide EraOfYear, IsLeap, EndsOnLeapDay;
    var y := dt.year - (if dt.month <= 2 then 1 else 0);
    EraOfYearIsFloor(y);
    LeapDayOfEra(y, EraOfYear(y));
    MarchMonthLengthIs(dt, EndsOnLeapDay(y - EraOfYear(y) * 400));
  }

  lemma FromEraIsValid(e: EraDate)
    requires ValidEraDate(e)
    ensures ValidDate(FromEra(e)) && ToEra(FromEra(e)) == e
  {
    hide EraOfYear, IsLeap, EndsOnLeapDay;
    var y := e.yoe + e.era * 400;
    EraOfYearIsFloor(y);
    assert EraOfYear(y) == e.era;
    LeapDayOfEra(y, e.era);
    MarchMonthLengthIs(FromEra(e), EndsOnLeapDay(e.yoe));
  }

  /** civil_from_days finds the era form of the date with a given day count. */
  lemma CivilFromDaysInEras(e: EraDate)
    requires ValidEraDate(e)
    ensures CivilFromDays(DaysOfEraDate(e)) == FromEra(e)
  {
    hide YearOfEra, EraOfDays, EndsOnLeapDay, CivilFromDays, MonthStart, YearStart;
    MonthOfDay(e.mp, e.day, EndsOnLeapDay(e.yoe));
    var doy := MonthStart(e.mp) + e.day - 1;
    YearOfEraIsExact(e.yoe, doy);
    var z := DaysOfEraDate(e);
    EraOfDaysIsFloor(z + 719468);
    EraIs(z + 719468, EraOfDays(z + 719468), e.era);
    CivilOfParts(z, e.era, e.yoe, doy, e.mp);
  }

  lemma EraIs(time: int, era: int, era': int)
    requires 0 <= time - era * 146097 < 146097 && 0 <= time - era' * 146097 < 146097
    ensures era == era'
  {
  }

  /** The last steps of civil_from_days, once era, year and month are known. */
  lemma CivilOfParts(z: int, era: int, yoe: int, doy: int, mp: int)
    requires EraOfDays(z + 719468) == era && YearOfEra(z + 719468 - era * 146097) == yoe
    requires z + 719468 - era * 146097 == YearStart(yoe) + doy && (5 * doy + 2) / 153 == mp
    ensures var m := mp + (if mp < 10 then 3 else -9);
            CivilFromDays(z) == Date(yoe + era * 400 + (if m <= 2 then 1 else 0), m, doy - MonthStart(mp) + 1)
  {
    hide EraOfDays, YearOfEra;
  }

  lemma EveryDayHasEraDate(z: int) returns (e: EraDate)
    ensures ValidEraDate(e) && DaysOfEraDate(e) == z
  {
    hide YearOfEra, EraOfDays, EndsOnLeapDay;
    var time := z + 719468;
    EraOfDaysIsFloor(time);
    var doe := time - EraOfDays(time) * 146097;
    DayOfEraSplits(doe);
    var yoe := YearOfEra(doe);
    var doy := doe - YearStart(yoe);
    DayOfMonth(doy, EndsOnLeapDay(yoe));
    var mp := (5 * doy + 2) / 153;
    e := EraDate(EraOfDays(time), yoe, mp, doy - MonthStart(mp) + 1);
  }

  // ---------------------------------------------------------------- main results

  /** Turning a valid date into a day count and back gives the date. */
  lemma CivilOfDays(dt: Date)
    requires ValidDate(dt)
    ensures CivilFromDays(DaysFromCivil(dt)) == dt
  {
    hide *;
    DaysFromCivilInEras(dt);
    ToEraIsValid(dt);
    CivilFromDaysInEras(ToEra(dt));
  }

  /** Every day count gives a valid date, and that date gives the day count back. */
  lemma DaysOfCivil(z: int)
    ensures ValidDate(CivilFromDays(z))
    ensures DaysFromCivil(CivilFromDays(z)) == z
  {
    hide *;
    var e := EveryDayHasEraDate(z);
    CivilFromDaysInEras(e);
    FromEraIsValid(e);
    DaysFromCivilInEras(FromEra(e));
  }

  /** The next day in era form. */
  function NextEraDay(e: EraDate): EraDate {
    if e.day < MarchMonthLength(e.mp, EndsOnLeapDay(e.yoe)) then e.(day := e.day + 1)
    else if e.mp < 11 then e.(mp := e.mp + 1, day := 1)
    else if e.yoe < 399 then EraDate(e.era, e.yoe + 1, 0, 1)
    else EraDate(e.era + 1, 0, 0, 1)
  }

  lemma NextEraDayCounts(e: EraDate)
    requires ValidEraDate(e)
    ensures ValidEraDate(NextEraDay(e))
    ensures DaysOfEraDate(NextEraDay(e)) == DaysOfEraDate(e) + 1
  {
    hide EndsOnLeapDay, YearStart;
    if e.mp == 11 && e.day == MarchMonthLength(e.mp, EndsOnLeapDay(e.yoe)) {
      YearLength(e.yoe);
    }
  }

  lemma YearLength(yoe: int)
    requires 0 <= yoe < 400
    ensures (if yoe < 399 then YearStart(yoe + 1) else 146097 + YearStart(0))
            == YearStart(yoe) + (if EndsOnLeapDay(yoe) then 366 else 365)
  {
    hide EndsOnLeapDay;
    var c, q, r := SplitYear(yoe);
    if yoe < 399 {
      var c', q', r' := SplitYear(yoe + 1);
    }
  }

  lemma NextDayInEras(e: EraDate)
    requires ValidEraDate(e)
    ensures NextDay(FromEra(e)) == FromEra(NextEraDay(e))
  {
    hide IsLeap, EndsOnLeapDay;
    LeapDayOfEra(e.yoe + e.era * 400, e.era);
    MarchMonthLengthIs(FromEra(e), EndsOnLeapDay(e.yoe));
  }

  /** The day after a date has the next day count. */
  lemma CivilOfNextDay(z: int)
    ensures CivilFromDays(z + 1) == NextDay(CivilFromDays(z))
  {
    hide *;
    var e := EveryDayHasEraDate(z);
    CivilFromDaysInEras(e);
    NextEraDayCounts(e);
    CivilFromDaysInEras(NextEraDay(e));
    NextDayInEras(e);
  }

  lemma NextThenPrev(dt: Date)
    requires ValidDate(dt)
    ensures PrevDay(NextDay(dt)) == dt
  {
  }

  /** civil_from_days is day-by-day stepping from 1970-01-01, in both directions. */
  lemma {:induction false} CivilIsStepped(z: int)
    ensures CivilFromDays(z) == Stepped(z)
    decreases if z >= 0 then z else -z
  {
    hide CivilFromDays, NextDay, PrevDay;
    if z == 0 {
      CivilOfEpoch();
    } else if z > 0 {
      CivilIsStepped(z - 1);
      CivilOfNextDay(z - 1);
    } else {
      CivilIsStepped(z + 1);
      CivilOfNextDay(z);
      DaysOfCivil(z);
      NextThenPrev(CivilFromDays(z));
    }
  }

  lemma CivilOfEpoch()
    ensures CivilFromDays(0) == Date(1970, 1, 1)
  {
    assert EraOfDays(719468) == 4;
    assert YearOfEra(135080) == 369;
  }

  /** The weekday is a number from 0 to 6, Thursday on day 0, and it advances by one each day. */
  lemma WeekdayAdvances(z: int)
    ensures 0 <= WeekdayFromDays(z) < 7
    ensures WeekdayFromDays(0) == 4
    ensures WeekdayFromDays(z + 1) == (WeekdayFromDays(z) + 1) % 7
  {
    hide WeekdayFromDays;
    WeekdayIsModulo(z);
    WeekdayIsModulo(z + 1);
    WeekdayIsModulo(0);
  }

  /** The clock fields carry exactly the seconds that the truncating division by a day left over. */
  lemma ClockFields(t: int)
    ensures var tm := GmTime(t);
            tm.hour * 3600 + tm.min * 60 + tm.sec == CMod(t, 86400)
  {
    hide CivilFromDays, WeekdayFromDays, CDiv;
    NestedMinutes(t);
    NestedHours(t);
  }

  lemma NestedMinutes(t: int)
    ensures CDiv(CDiv(t, 60), 60) == CDiv(t, 3600)
  {
    Sixty(if t >= 0 then t else -t);
  }

  lemma NestedHours(t: int)
    ensures CDiv(CDiv(t, 3600), 24) == CDiv(t, 86400)
  {
    TwentyFour(if t >= 0 then t else -t);
  }

  lemma Sixty(s: nat)
    ensures s / 60 / 60 == s / 3600
  {
  }

  lemma TwentyFour(s: nat)
    ensures s / 3600 / 24 == s / 86400
  {
  }

  /** timegm undoes gmtime_r for every time, negative ones included. */
  lemma TimeGmOfGmTime(t: int)
    ensures TimeGm(GmTime(t)) == t
  {
    hide CivilFromDays, DaysFromCivil, WeekdayFromDays;
    DaysOfCivil(CDiv(t, 86400));
    ClockFields(t);
  }

  /** The broken-down time is the UTC date and clock of `t`: the floor day and a clock in range. */
  predicate IsUtc(t: int, tm: Tm) {
    && Date(tm.year + 1900, tm.mon + 1, tm.mday) == Stepped(t / 86400)
    && 0 <= tm.sec < 60 && 0 <= tm.min < 60 && 0 <= tm.hour < 24
    && tm.wday == (t / 86400 + 4) % 7
  }

  lemma WeekdayIsModulo(z: int)
    ensures WeekdayFromDays(z) == (z + 4) % 7
  {
    if z < -4 {
      Modulo7(z + 4, CMod(z + 5, 7) + 6, CDiv(z + 5, 7) - 1);
    } else {
      Modulo7(z + 4, CMod(z + 4, 7), CDiv(z + 4, 7));
    }
  }

  lemma Modulo7(a: int, r: int, q: int)
    requires 0 <= r < 7 && a == 7 * q + r
    ensures a % 7 == r
  {
  }

  /** Truncation rounds a time before 1970 up to the next day, unless it is an exact midnight. */
  lemma DayOfTime(t: int)
    ensures CDiv(t, 86400) == if t >= 0 || t % 86400 == 0 then t / 86400 else t / 86400 + 1
  {
    if t < 0 {
      Div86400(-t, if t % 86400 == 0 then -(t / 86400) else -(t / 86400) - 1);
    }
  }

  lemma Div86400(a: int, q: int)
    requires 86400 * q <= a < 86400 * q + 86400
    ensures a / 86400 == q
  {
  }

  lemma ClockInRange(t: int)
    requires t >= 0 || t % 86400 == 0
    ensures 0 <= CMod(t, 60) < 60 && 0 <= CMod(CDiv(t, 60), 60) < 60 && 0 <= CMod(CDiv(t, 3600), 24) < 24
  {
    if t < 0 {
      var k := -(t / 86400);
      Quotients(-t, k);
      Quotients(CDiv(-t, 60), k);
    }
  }

  lemma Quotients(a: int, k: int)
    requires a == 86400 * k || a == 1440 * k
    requires k >= 0
    ensures a == 86400 * k ==> a / 60 == 1440 * k && a / 3600 == 24 * k
    ensures a == 1440 * k ==> a / 60 == 24 * k
  {
  }

  /** gmtime_r gives the UTC date and clock exactly for times not before 1970 and for exact midnights:
      before 1970 the truncating division rounds every other time up to the following day. */
  lemma GmTimeIsUtcExactly(t: int)
    ensures IsUtc(t, GmTime(t)) <==> (t >= 0 || t % 86400 == 0)
  {
    hide CivilFromDays, WeekdayFromDays, Stepped, CDiv, CMod, DaysFromCivil;
    var days := CDiv(t, 86400);
    DayOfTime(t);
    CivilIsStepped(days);
    WeekdayIsModulo(days);
    if t >= 0 || t % 86400 == 0 {
      ClockInRange(t);
    } else {
      CivilIsStepped(t / 86400);
      DaysOfCivil(days);
      DaysOfCivil(t / 86400);
    }
  }

  /** One second before the epoch is reported as 1970-01-01 with -1 seconds. */
  lemma GmTimeBeforeEpoch()
    ensures GmTime(-1) == Tm(-1, 0, 0, 1, 0, 70, 4)
  {
    hide CivilFromDays, WeekdayFromDays;
    CivilOfEpoch();
    WeekdayIsModulo(0);
    assert CDiv(-1, 60) == 0 && CDiv(-1, 3600) == 0 && CDiv(-1, 86400) == 0;
  }

  // ---------------------------------------------------------------- the range of the int type

  predicate FitsInt(x: int) { INT_MIN <= x <= INT_MAX }

  /** For an int day count, the int product era * 146097 overflows exactly above this limit. */
  lemma CivilFitsInt(z: int)
    requires FitsInt(z)
    ensures FitsInt(EraOfDays(z + 719468) * 146097) <==> z < 14700 * 146097 - 719468
    ensures FitsInt(EraOfDays(z + 719468) * 146097) ==> FitsInt(CivilFromDays(z).year)
  {
    hide EraOfDays, YearOfEra, CivilFromDays, YearStart, EndsOnLeapDay;
    EraOfDaysIsFloor(z + 719468);
    DayOfEraSplits(z + 719468 - EraOfDays(z + 719468) * 146097);
    YearOfCivil(z);
  }

  lemma YearOfCivil(z: int)
    ensures var era := EraOfDays(z + 719468);
            0 <= CivilFromDays(z).year - (YearOfEra(z + 719468 - era * 146097) + era * 400) <= 1
  {
    hide EraOfDays, YearOfEra;
  }

  // ---------------------------------------------------------------- the narrowed day count

  /** Conversion of a wider integer to a 32-bit `int`. */
  function ToInt(x: int): (r: int)
    ensures FitsInt(r) && (r == x <==> FitsInt(x))
  {
    (x - INT_MIN) % 0x1_0000_0000 + INT_MIN
  }

  /** `gmtime_r` with its day count narrowed to `int`, as the source declares it. */
  function NarrowGmTime(t: int): (r: Tm) {
    var days := ToInt(CDiv(t, 86400));
    var dt := CivilFromDays(days);
    Tm(CMod(t, 60), CMod(CDiv(t, 60), 60), CMod(CDiv(t, 3600), 24),
       dt.day, dt.month - 1, dt.year - 1900, WeekdayFromDays(days))
  }

  /** No int intermediate of `civil_from_days` overflows. */
  predicate CivilInRange(z: int) {
    var era := EraOfDays(z + 719468);
    && FitsInt(era) && FitsInt(era * 146097) && FitsInt(era * 400)
    && FitsInt(YearOfEra(z + 719468 - era * 146097) + era * 400) && FitsInt(CivilFromDays(z).year)
  }

  /** No int intermediate of `days_from_civil` overflows: the year, the era, and the sum before the shift of the
      origin, which is 719468 more than the day count. */
  predicate DaysInRange(dt: Date) {
    var e := ToEra(dt);
    var y := e.yoe + e.era * 400;
    && FitsInt(dt.year) && FitsInt(y) && (y < 0 ==> FitsInt(y - 399))
    && FitsInt(e.era * 400) && FitsInt(e.era * 146097)
    && FitsInt(DaysFromCivil(dt) + 719468) && FitsInt(DaysFromCivil(dt))
  }

  /** The era form of a date, its place within the era, and the day count that both conversions use. */
  lemma EraFormOf(z: int) returns (e: EraDate, doe: int)
    ensures e == ToEra(CivilFromDays(z)) && 0 <= e.yoe < 400 && 0 <= doe < 146097 && z + 719468 == e.era * 146097 + doe
    ensures EraOfDays(z + 719468) == e.era && YearOfEra(doe) == e.yoe
    ensures 0 <= CivilFromDays(z).year - (e.yoe + e.era * 400) <= 1
  {
    hide EraOfDays, YearOfEra, CivilFromDays, YearStart, MonthStart, EndsOnLeapDay, ToEra;
    e := EveryDayHasEraDate(z);
    CivilFromDaysInEras(e);
    FromEraIsValid(e);
    MonthOfDay(e.mp, e.day, EndsOnLeapDay(e.yoe));
    var doy := MonthStart(e.mp) + e.day - 1;
    YearOfEraIsExact(e.yoe, doy);
    doe := YearStart(e.yoe) + doy;
    EraOfDaysIsFloor(z + 719468);
    EraIs(z + 719468, EraOfDays(z + 719468), e.era);
  }

  /** For an int day count, `civil_from_days` is free of overflow below one limit and `days_from_civil` of the
      date below another, lower one. */
  lemma RangesExactly(z: int)
    requires FitsInt(z)
    ensures CivilInRange(z) <==> z < 14700 * 146097 - 719468
    ensures DaysInRange(CivilFromDays(z)) <==> z <= INT_MAX - 719468
  {
    hide EraOfDays, YearOfEra, CivilFromDays, DaysFromCivil, ToEra;
    var e, doe := EraFormOf(z);
    DaysOfCivil(z);
    assert z + 719468 - e.era * 146097 == doe;
  }

  /** The whole computation stays within its int variables and gives the time back. */
  predicate RoundTrips(t: int) {
    var days := ToInt(CDiv(t, 86400));
    CivilInRange(days) && DaysInRange(CivilFromDays(days)) && TimeGm(NarrowGmTime(t)) == t
  }

  /** timegm undoes gmtime_r, in the integer types of the source, exactly for these day counts. */
  lemma NarrowRoundTrip(t: int)
    ensures RoundTrips(t) <==> INT_MIN <= CDiv(t, 86400) <= INT_MAX - 719468
    ensures FitsInt(CDiv(t, 86400)) ==> NarrowGmTime(t) == GmTime(t)
  {
    hide CivilFromDays, DaysFromCivil, CDiv, CMod, WeekdayFromDays, CivilInRange, DaysInRange;
    var days := CDiv(t, 86400);
    RangesExactly(ToInt(days));
    DaysOfCivil(ToInt(days));
    DaysOfCivil(days);
    TimeGmOfGmTime(t);
  }

  /** The first day that fails: gmtime_r is still free of overflow, timegm of its result is not. */
  lemma FirstOverflow()
    ensures var z := 2146764180;
            FitsInt(z) && CivilInRange(z) && !DaysInRange(CivilFromDays(z)) && DaysInRange(CivilFromDays(z - 1))
  {
    hide CivilInRange, DaysInRange, CivilFromDays;
    RangesExactly(2146764180);
    RangesExactly(2146764179);
  }

  // ---------------------------------------------------------------- the day of the year

  /** The days of the year before the first of `month`. */
  function DaysBefore(year: int, month: int): int
    decreases month
  {
    if month <= 1 then 0 else DaysBefore(year, month - 1) + DaysInMonth(year, month - 1)
  }

  const U32: int := 0x1_0000_0000

  /** The third term of `yearday_from_date`, for the year as an unsigned number. */
  function LeapTerm(u: int): int {
    1 + ((u - 4 * u % U32 / 4) % U32 + 2) % U32 / 3
  }

  /** `yearday_from_date`, in the unsigned arithmetic of the source. */
  function YearDay(year: int, month: int, day: int): int {
    (275 * month / 9 - (month + 9) / 12 * LeapTerm(year % U32) + day - 30) % U32
  }

  /** The third term is 1 whatever the year, unless four times the year overflows. */
  lemma LeapTermIs(u: int)
    requires 0 <= u < U32
    ensures if u < 0x4000_0000 then LeapTerm(u) == 1 else 366 < LeapTerm(u) < U32 - 732
  {
    assert 4 * u % U32 / 4 == u % 0x4000_0000 by {
      var q := u / 0x4000_0000;
      assert q == 0 || q == 1 || q == 2 || q == 3;
    }
  }

  lemma ModuloU32(x: int, n: int)
    requires 0 <= n <= 366 && -U32 + 366 < x < 732
    ensures x % U32 == n <==> x == n
  {
  }

  lemma UnsignedYear(year: int)
    requires FitsInt(year)
    ensures 0 <= year % U32 < U32
    ensures year % U32 < 0x4000_0000 <==> 0 <= year < 0x4000_0000
  {
  }

  /** The first two terms count the days before the month as if the year were a leap year. */
  lemma DaysBeforeIs(year: int, month: int)
    requires 1 <= month <= 12
    ensures DaysBefore(year, month) ==
            275 * month / 9 - 30 - (if month <= 2 then 0 else if IsLeap(year) then 1 else 2)
    ensures (month + 9) / 12 == if month <= 2 then 0 else 1
    decreases month
  {
    if month > 1 { DaysBeforeIs(year, month - 1); }
  }

  /** The day of the year is right up to February, and after it exactly in leap years. */
  lemma YearDayExactly(dt: Date)
    requires ValidDate(dt) && FitsInt(dt.year)
    ensures YearDay(dt.year, dt.month, dt.day) == DaysBefore(dt.year, dt.month) + dt.day
            <==> dt.month <= 2 || (0 <= dt.year < 0x4000_0000 && IsLeap(dt.year))
  {
    hide LeapTerm, DaysBefore, IsLeap;
    UnsignedYear(dt.year);
    LeapTermIs(dt.year % U32);
    DaysBeforeIs(dt.year, dt.month);
    var before := DaysBefore(dt.year, dt.month);
    ModuloU32(275 * dt.month / 9 - (dt.month + 9) / 12 * LeapTerm(dt.year % U32) + dt.day - 30, before + dt.day);
  }

  /** The first of March 1970 is reported as day 61 of the year instead of day 60. */
  lemma YearDayOfMarch()
    ensures YearDay(1970, 3, 1) == 61 && DaysBefore(1970, 3) + 1 == 60
  {
    DaysBeforeIs(1970, 3);
  }
}
