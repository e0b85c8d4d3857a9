// The civil calendar of crates/iec104/src/time.rs, and the copies of it in
// crates/planning/src/localtime.rs and crates/control/src/compliance.rs.
// Dafny's / and % are Rust's div_euclid and rem_euclid for positive divisors; the quotients the
// source truncates have non-negative operands.
module Calendar {
  datatype Date = Date(y: int, m: int, d: int)

  function CivilFromDays(days: int): Date {
    var z := days + 719_468;
    CivilInEra(z / 146_097, z % 146_097)
  }

  function CivilInEra(era: int, doe: int): Date {
    var yoe := (doe - doe / 1460 + doe / 36_524 - doe / 146_096) / 365;
    var doy := doe - (365 * yoe + yoe / 4 - yoe / 100);
    var mp := (5 * doy + 2) / 153;
    var d := doy - (153 * mp + 2) / 5 + 1;
    var m := if mp < 10 then mp + 3 else mp - 9;
    Date(yoe + era * 400 + (if m <= 2 then 1 else 0), m, d)
  }

  function DaysFromCivil(date: Date): int {
    var y := if date.m <= 2 then date.y - 1 else date.y;
    var era := y / 400;
    var yoe := y % 400;
    var mp := if date.m > 2 then date.m - 3 else date.m + 9;
    var doy := (153 * mp + 2) / 5 + date.d - 1;
    var doe := yoe * 365 + yoe / 4 - yoe / 100 + doy;
    era * 146_097 + doe - 719_468
  }

  // ---------------------------------------------------------------- the Gregorian calendar itself

  predicate Leap(y: int) {
    y % 4 == 0 && (y % 100 != 0 || y % 400 == 0)
  }

  function DaysInMonth(y: int, m: int): int {
    if m == 2 then (if Leap(y) then 29 else 28)
    else if m in {4, 6, 9, 11} then 30
    else 31
  }

  predicate Valid(date: Date) {
    1 <= date.m <= 12 && 1 <= date.d <= DaysInMonth(date.y, date.m)
  }

  function NextDay(date: Date): Date {
    if date.d < DaysInMonth(date.y, date.m) then date.(d := date.d + 1)
    else if date.m < 12 then Date(date.y, date.m + 1, 1)
    else Date(date.y + 1, 1, 1)
  }

  // ---------------------------------------------------------------- years and months of an era

  // Days before year y of an era of 400 years starting on 1 March.
  function YearStart(y: int): int {
    365 * y + y / 4 - y / 100 + y / 400
  }

  function MonthStart(mp: int): int {
    (153 * mp + 2) / 5
  }

  lemma Remainder(z: int)
    ensures z - z / 146_097 * 146_097 == z % 146_097
    ensures z - z / 400 * 400 == z % 400
  {
  }

  // Year y of the era (March to February) ends with 29 February.
  predicate LongYear(y: int) {
    (y + 1) % 4 == 0 && ((y + 1) % 100 != 0 || (y + 1) % 400 == 0)
  }

  // Year 100b + 4c + d of an era, by centuries, groups of four years, and years.
  lemma YearStartBy(b: int, c: int, d: int)
    requires 0 <= b < 4 && 0 <= c < 25 && 0 <= d < 4
    ensures YearStart(100 * b + 4 * c + d) == 36_524 * b + 1461 * c + 365 * d
  {
    var y := 100 * b + 4 * c + d;
    assert y / 4 == 25 * b + c;
    assert y / 100 == b;
    assert y / 400 == 0;
  }

  lemma DayOfEra(doe: int) returns (b: int, c: int, d: int, doy: int)
    requires 0 <= doe < 146_097
    ensures 0 <= b < 4 && 0 <= c < 25 && 0 <= d < 4 && 0 <= doy <= 365
    ensures doe == 36_524 * b + 1461 * c + 365 * d + doy
    ensures doy == 365 ==> d == 3 && (c < 24 || b == 3)
  {
    b := if doe / 36_524 < 4 then doe / 36_524 else 3;
    var r := doe - 36_524 * b;
    c := r / 1461;
    var s := r - 1461 * c;
    d := if s / 365 < 4 then s / 365 else 3;
    doy := s - 365 * d;
  }

  lemma LeapDaysTooMany(b: int, c: int, d: int, doy: int) returns (e: int)
    requires 0 <= b < 4 && 0 <= c < 25 && 0 <= d < 4 && 0 <= doy <= 365
    requires doy == 365 ==> d == 3 && (c < 24 || b == 3)
    ensures (36_524 * b + 1461 * c + 365 * d + doy) / 1460 == 25 * b + c + e && 0 <= doy - e < 365
  {
    e := (24 * b + c + 365 * d + doy) / 1460;
    var doe := 36_524 * b + 1461 * c + 365 * d + doy;
    assert doe == 1460 * (25 * b + c) + (24 * b + c + 365 * d + doy);
  }

  lemma CenturiesAre(b: int, c: int, d: int, doy: int)
    requires 0 <= b < 4 && 0 <= c < 25 && 0 <= d < 4 && 0 <= doy <= 365
    requires doy == 365 ==> d == 3 && (c < 24 || b == 3)
    ensures var doe := 36_524 * b + 1461 * c + 365 * d + doy; doe / 36_524 - doe / 146_096 == b
  {
  }

  // The year formula on day doy of year 100b + 4c + d: 1460 = 4 * 365 puts at most one day
  // too many into the count of leap days, and the division by 365 absorbs it.
  lemma YearFormula(b: int, c: int, d: int, doy: int)
    requires 0 <= b < 4 && 0 <= c < 25 && 0 <= d < 4 && 0 <= doy <= 365
    requires doy == 365 ==> d == 3 && (c < 24 || b == 3)
    ensures var doe := 36_524 * b + 1461 * c + 365 * d + doy;
      (doe - doe / 1460 + doe / 36_524 - doe / 146_096) / 365 == 100 * b + 4 * c + d
  {
    var doe := 36_524 * b + 1461 * c + 365 * d + doy;
    var e := LeapDaysTooMany(b, c, d, doy);
    CenturiesAre(b, c, d, doy);
    assert doe - doe / 1460 + doe / 36_524 - doe / 146_096 == 365 * (100 * b + 4 * c + d) + (doy - e);
  }

  lemma LastDayOfLongYear(b: int, c: int)
    requires 0 <= b < 4 && 0 <= c < 25 && (c < 24 || b == 3)
    ensures LongYear(100 * b + 4 * c + 3)
  {
    var next := 100 * b + 4 * c + 4;
    assert next % 4 == 0 by { assert next == 4 * (25 * b + c + 1); }
    assert c < 24 ==> next % 100 == 4 * c + 4;
  }

  lemma YearOfEra(doe: int)
    requires 0 <= doe < 146_097
    ensures var yoe := (doe - doe / 1460 + doe / 36_524 - doe / 146_096) / 365;
      0 <= yoe < 400 && YearStart(yoe) <= doe
      && doe - YearStart(yoe) < (if LongYear(yoe) then 366 else 365)
  {
    var b, c, d, doy := DayOfEra(doe);
    YearFormula(b, c, d, doy);
    YearStartBy(b, c, d);
    if doy == 365 {
      LastDayOfLongYear(b, c);
    }
  }

  // Any start of an era: years advance by their length.
  lemma YearLength(y: int)
    requires 0 <= y < 400
    ensures YearStart(y + 1) - YearStart(y) == if LongYear(y) then 366 else 365
  {
    assert (y + 1) / 4 - y / 4 == if (y + 1) % 4 == 0 then 1 else 0;
    assert (y + 1) / 100 - y / 100 == if (y + 1) % 100 == 0 then 1 else 0;
    assert (y + 1) / 400 - y / 400 == if y == 399 then 1 else 0;
    assert (y + 1) % 100 == 0 ==> (y + 1) % 4 == 0 by {
      assert y + 1 == 100 * ((y + 1) / 100) + (y + 1) % 100;
    }
  }

  lemma YearStartIsMonotone(a: int, b: int)
    requires 0 <= a <= b <= 400
    ensures YearStart(a) <= YearStart(b)
  {
    assert a / 4 <= b / 4 && a / 100 <= b / 100 && b / 100 - a / 100 <= b - a && a / 400 <= b / 400;
  }

  lemma MonthOfYear(doy: int)
    requires 0 <= doy < 366
    ensures var mp := (5 * doy + 2) / 153;
      0 <= mp < 12 && MonthStart(mp) <= doy < MonthStart(mp + 1)
  {
  }

  // ---------------------------------------------------------------- dates by era, year and month

  // The date of day d of the month mp months after March, in year yoe of an era.
  function DateOf(era: int, yoe: int, mp: int, d: int): Date {
    var m := if mp < 10 then mp + 3 else mp - 9;
    Date(yoe + era * 400 + (if m <= 2 then 1 else 0), m, d)
  }

  // Length of the month mp months after March; February is last.
  function MonthLength(yoe: int, mp: int): int {
    if mp == 11 then (if LongYear(yoe) then 29 else 28)
    else MonthStart(mp + 1) - MonthStart(mp)
  }

  lemma Mod400(x: int, k: int)
    ensures (x + 400 * k) % 400 == x % 400
  {
  }

  lemma Mod100(x: int, k: int)
    ensures (x + 100 * k) % 100 == x % 100
  {
  }

  lemma Mod4(x: int, k: int)
    ensures (x + 4 * k) % 4 == x % 4
  {
  }

  lemma LeapYearsOfEra(era: int, yoe: int)
    requires 0 <= yoe < 400
    ensures Leap(yoe + era * 400 + 1) <==> LongYear(yoe)
  {
    Mod400(yoe + 1, era);
    Mod100(yoe + 1, 4 * era);
    Mod4(yoe + 1, 100 * era);
  }

  lemma ValidDateOf(era: int, yoe: int, mp: int, d: int)
    requires 0 <= yoe < 400 && 0 <= mp < 12
    ensures Valid(DateOf(era, yoe, mp, d)) <==> 1 <= d <= MonthLength(yoe, mp)
  {
    LeapYearsOfEra(era, yoe);
  }

  lemma DaysOfDateOf(era: int, yoe: int, mp: int, d: int)
    requires 0 <= yoe < 400 && 0 <= mp < 12
    ensures DaysFromCivil(DateOf(era, yoe, mp, d))
            == era * 146_097 + YearStart(yoe) + MonthStart(mp) + d - 1 - 719_468
  {
    assert (yoe + era * 400) / 400 == era && (yoe + era * 400) % 400 == yoe;
  }

  lemma PlaceInYear(yoe: int, doy: int) returns (mp: int, d: int)
    requires 0 <= yoe < 400 && 0 <= doy < (if LongYear(yoe) then 366 else 365)
    ensures mp == (5 * doy + 2) / 153 && d == doy - MonthStart(mp) + 1
    ensures 0 <= mp < 12 && 1 <= d <= MonthLength(yoe, mp)
  {
    MonthOfYear(doy);
    mp := (5 * doy + 2) / 153;
    d := doy - MonthStart(mp) + 1;
  }

  lemma YearOf(doe: int) returns (yoe: int)
    requires 0 <= doe < 146_097
    ensures yoe == (doe - doe / 1460 + doe / 36_524 - doe / 146_096) / 365
    ensures 0 <= yoe < 400 && YearStart(yoe) == 365 * yoe + yoe / 4 - yoe / 100
    ensures 0 <= doe - YearStart(yoe) < (if LongYear(yoe) then 366 else 365)
  {
    YearOfEra(doe);
    yoe := (doe - doe / 1460 + doe / 36_524 - doe / 146_096) / 365;
  }

  lemma PlaceOfDay(era: int, doe: int) returns (yoe: int, mp: int, d: int)
    requires 0 <= doe < 146_097
    ensures 0 <= yoe < 400 && 0 <= mp < 12 && 1 <= d <= MonthLength(yoe, mp)
    ensures CivilInEra(era, doe) == DateOf(era, yoe, mp, d)
    ensures doe == YearStart(yoe) + MonthStart(mp) + d - 1
  {
    yoe := YearOf(doe);
    var doy := doe - YearStart(yoe);
    mp, d := PlaceInYear(yoe, doy);
  }

  // Every day number is a day of some month of some year of some era.
  lemma PlaceInEra(days: int) returns (era: int, yoe: int, mp: int, d: int)
    ensures 0 <= yoe < 400 && 0 <= mp < 12 && 1 <= d <= MonthLength(yoe, mp)
    ensures CivilFromDays(days) == DateOf(era, yoe, mp, d)
    ensures days == era * 146_097 + YearStart(yoe) + MonthStart(mp) + d - 1 - 719_468
  {
    era := (days + 719_468) / 146_097;
    var doe := (days + 719_468) % 146_097;
    yoe, mp, d := PlaceOfDay(era, doe);
  }

  // Every valid date has such a place.
  lemma PlaceOfDate(date: Date) returns (era: int, yoe: int, mp: int)
    requires Valid(date)
    ensures 0 <= yoe < 400 && 0 <= mp < 12 && 1 <= date.d <= MonthLength(yoe, mp)
    ensures date == DateOf(era, yoe, mp, date.d)
  {
    var y := if date.m <= 2 then date.y - 1 else date.y;
    era, yoe := y / 400, y % 400;
    mp := if date.m > 2 then date.m - 3 else date.m + 9;
    ValidDateOf(era, yoe, mp, date.d);
  }

  // A day lies in its year, and its year in the era.
  lemma DayWithinEra(yoe: int, mp: int, d: int)
    requires 0 <= yoe < 400 && 0 <= mp < 12 && 1 <= d <= MonthLength(yoe, mp)
    ensures var doe := YearStart(yoe) + MonthStart(mp) + d - 1;
      0 <= YearStart(yoe) <= doe < YearStart(yoe + 1) <= 146_097
  {
    YearLength(yoe);
    YearStartIsMonotone(0, yoe);
    YearStartIsMonotone(yoe + 1, 400);
  }

  lemma MonthIsUnique(yoe: int, m1: int, d1: int, m2: int, d2: int)
    requires 0 <= m1 < 12 && 1 <= d1 <= MonthLength(yoe, m1)
    requires 0 <= m2 < 12 && 1 <= d2 <= MonthLength(yoe, m2)
    requires MonthStart(m1) + d1 == MonthStart(m2) + d2
    ensures m1 == m2 && d1 == d2
  {
  }

  lemma YearIsUnique(y1: int, y2: int, doe: int)
    requires 0 <= y1 < 400 && YearStart(y1) <= doe < YearStart(y1 + 1)
    requires 0 <= y2 < 400 && YearStart(y2) <= doe < YearStart(y2 + 1)
    ensures y1 == y2
  {
    if y1 < y2 {
      YearStartIsMonotone(y1 + 1, y2);
    } else if y2 < y1 {
      YearStartIsMonotone(y2 + 1, y1);
    }
  }

  lemma EraIsUnique(e1: int, t1: int, e2: int, t2: int)
    requires 0 <= t1 < 146_097 && 0 <= t2 < 146_097
    requires e1 * 146_097 + t1 == e2 * 146_097 + t2
    ensures e1 == e2 && t1 == t2
  {
  }

  // A place determines the day number, and the day number the place.
  lemma PlaceIsUnique(e1: int, y1: int, m1: int, d1: int, e2: int, y2: int, m2: int, d2: int)
    requires 0 <= y1 < 400 && 0 <= m1 < 12 && 1 <= d1 <= MonthLength(y1, m1)
    requires 0 <= y2 < 400 && 0 <= m2 < 12 && 1 <= d2 <= MonthLength(y2, m2)
    requires e1 * 146_097 + YearStart(y1) + MonthStart(m1) + d1
             == e2 * 146_097 + YearStart(y2) + MonthStart(m2) + d2
    ensures e1 == e2 && y1 == y2 && m1 == m2 && d1 == d2
  {
    DayWithinEra(y1, m1, d1);
    DayWithinEra(y2, m2, d2);
    var t1, t2 := YearStart(y1) + MonthStart(m1) + d1 - 1, YearStart(y2) + MonthStart(m2) + d2 - 1;
    EraIsUnique(e1, t1, e2, t2);
    YearIsUnique(y1, y2, t1);
    MonthIsUnique(y1, m1, d1, m2, d2);
  }

  // ---------------------------------------------------------------- the theorems

  // Every day number gives a valid date, and that date gives the day number back.
  lemma DaysRoundTrip(days: int)
    ensures Valid(CivilFromDays(days))
    ensures DaysFromCivil(CivilFromDays(days)) == days
  {
    var era, yoe, mp, d := PlaceInEra(days);
    ValidDateOf(era, yoe, mp, d);
    DaysOfDateOf(era, yoe, mp, d);
  }

  // Every valid date comes back from its day number.
  lemma DatesRoundTrip(date: Date)
    requires Valid(date)
    ensures CivilFromDays(DaysFromCivil(date)) == date
  {
    var e1, y1, m1 := PlaceOfDate(date);
    DaysOfDateOf(e1, y1, m1, date.d);
    var e2, y2, m2, d2 := PlaceInEra(DaysFromCivil(date));
    PlaceIsUnique(e1, y1, m1, date.d, e2, y2, m2, d2);
  }

  lemma NextInMonth(era: int, yoe: int, mp: int, d: int)
    requires 0 <= yoe < 400 && 0 <= mp < 12 && 1 <= d < MonthLength(yoe, mp)
    ensures NextDay(DateOf(era, yoe, mp, d)) == DateOf(era, yoe, mp, d + 1)
  {
    ValidDateOf(era, yoe, mp, d + 1);
  }

  lemma NextMonth(era: int, yoe: int, mp: int)
    requires 0 <= yoe < 400 && 0 <= mp < 11
    ensures NextDay(DateOf(era, yoe, mp, MonthLength(yoe, mp))) == DateOf(era, yoe, mp + 1, 1)
    ensures MonthStart(mp + 1) == MonthStart(mp) + MonthLength(yoe, mp)
  {
  }

  lemma NextYear(era: int, yoe: int)
    requires 0 <= yoe < 400
    ensures NextDay(DateOf(era, yoe, 11, MonthLength(yoe, 11)))
            == DateOf(if yoe < 399 then era else era + 1, (yoe + 1) % 400, 0, 1)
  {
    LeapYearsOfEra(era, yoe);
  }

  lemma NextYearStart(yoe: int)
    requires 0 <= yoe < 400
    ensures YearStart((yoe + 1) % 400) + (if yoe < 399 then 0 else 146_097)
            == YearStart(yoe) + MonthStart(11) + MonthLength(yoe, 11)
  {
    YearLength(yoe);
  }

  // The place after a place: the next day, the first of the next month, or of the next year.
  lemma NextPlace(era: int, yoe: int, mp: int, d: int) returns (e: int, y: int, m: int, d': int)
    requires 0 <= yoe < 400 && 0 <= mp < 12 && 1 <= d <= MonthLength(yoe, mp)
    ensures 0 <= y < 400 && 0 <= m < 12 && 1 <= d' <= MonthLength(y, m)
    ensures NextDay(DateOf(era, yoe, mp, d)) == DateOf(e, y, m, d')
    ensures e * 146_097 + YearStart(y) + MonthStart(m) + d'
            == era * 146_097 + YearStart(yoe) + MonthStart(mp) + d + 1
  {
    if d < MonthLength(yoe, mp) {
      NextInMonth(era, yoe, mp, d);
      e, y, m, d' := era, yoe, mp, d + 1;
    } else if mp < 11 {
      NextMonth(era, yoe, mp);
      e, y, m, d' := era, yoe, mp + 1, 1;
    } else {
      NextYear(era, yoe);
      NextYearStart(yoe);
      e, y, m, d' := if yoe < 399 then era else era + 1, (yoe + 1) % 400, 0, 1;
    }
  }

  // The day number of a date is that of no other date.
  lemma DateNumbered(date: Date, days: int)
    requires Valid(date) && DaysFromCivil(date) == days
    ensures CivilFromDays(days) == date
  {
    DatesRoundTrip(date);
  }

  // Day 0 is 1 January 1970 ...
  lemma EpochIsDayZero()
    ensures CivilFromDays(0) == Date(1970, 1, 1)
  {
    DateNumbered(Date(1970, 1, 1), 0);
  }

  // ... and each further day number is the next day of the Gregorian calendar.
  lemma NextNumberIsNextDay(days: int)
    ensures CivilFromDays(days + 1) == NextDay(CivilFromDays(days))
  {
    var era, yoe, mp, d := PlaceInEra(days);
    var e, y, m, d' := NextPlace(era, yoe, mp, d);
    var e2, y2, m2, d2 := PlaceInEra(days + 1);
    PlaceIsUnique(e, y, m, d', e2, y2, m2, d2);
  }

  // 0 = Monday .. 6 = Sunday; 1 January 1970 was a Thursday.
  function Weekday(days: int): int {
    (days + 3) % 7
  }
}
