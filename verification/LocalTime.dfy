// Central European time (crates/planning/src/localtime.rs).
module LocalTime {
  import opened Calendar

  datatype Civil = Civil(year: int, month: int, day: int, weekday: int)

  // The second copy of the calendar, with the weekday (0 = Monday).
  function CivilOf(days: int): Civil {
    var z := days + 719_468;
    var era := z / 146_097;
    CivilOfEra(days, era, z - era * 146_097)
  }

  function CivilOfEra(days: int, era: int, doe: int): Civil {
    var yoe := (doe - doe / 1460 + doe / 36_524 - doe / 146_096) / 365;
    var doy := doe - (365 * yoe + yoe / 4 - yoe / 100);
    var mp := (5 * doy + 2) / 153;
    var day := doy - (153 * mp + 2) / 5 + 1;
    var month := if mp < 10 then mp + 3 else mp - 9;
    Civil(yoe + era * 400 + (if month <= 2 then 1 else 0), month, day, (days + 3) % 7)
  }

  function DaysOf(year: int, month: int, day: int): int {
    var y := year - (if month <= 2 then 1 else 0);
    var era := y / 400;
    DaysOfYear(era, y - era * 400, month, day)
  }

  function DaysOfYear(era: int, yoe: int, month: int, day: int): int {
    var doy := (153 * (if month > 2 then month - 3 else month + 9) + 2) / 5 + day - 1;
    var doe := yoe * 365 + yoe / 4 - yoe / 100 + doy;
    era * 146_097 + doe - 719_468
  }

  lemma CopyAgreesInEra(days: int, era: int, doe: int)
    ensures var c := CivilOfEra(days, era, doe);
      Date(c.year, c.month, c.day) == CivilInEra(era, doe) && c.weekday == Weekday(days)
  {
  }

  // Both copies give the same dates ...
  lemma DatesAgree(days: int)
    ensures var c := CivilOf(days);
      Date(c.year, c.month, c.day) == CivilFromDays(days) && c.weekday == Weekday(days)
  {
    var z := days + 719_468;
    Remainder(z);
    CopyAgreesInEra(days, z / 146_097, z % 146_097);
  }

  // ... and the same day numbers.
  lemma DayNumbersAgree(date: Date)
    ensures DaysOf(date.y, date.m, date.d) == DaysFromCivil(date)
  {
    Remainder(date.y - (if date.m <= 2 then 1 else 0));
  }

  // 01:00 UTC on the last Sunday of a month of 31 days.
  function LastSunday0100(year: int, month: int): int {
    var d31 := DaysOf(year, month, 31);
    var back := (CivilOf(d31).weekday + 1) % 7;
    (d31 - back) * 86_400 + 3600
  }

  function CetOffset(unix: real): real {
    var t := unix.Floor;
    var year := CivilOf((unix / 86_400.0).Floor).year;
    if LastSunday0100(year, 3) <= t < LastSunday0100(year, 10) then 7200.0 else 3600.0
  }

  function LocalSecondsOfDay(unix: real): real {
    var local := unix + CetOffset(unix);
    local - 86_400.0 * (local / 86_400.0).Floor as real
  }

  lemma MonthDay(year: int, month: int, d: int, n: int)
    ensures DaysFromCivil(Date(year, month, d + n)) == DaysFromCivil(Date(year, month, d)) + n
  {
  }

  // March and October have 31 days.
  lemma DayOfNextMonth(year: int, month: int, d: int)
    requires month in {3, 10}
    ensures DaysFromCivil(Date(year, month + 1, d)) == DaysFromCivil(Date(year, month, 31)) + d
  {
  }

  lemma BackToSunday(days: int)
    ensures var back := (Weekday(days) + 1) % 7;
      0 <= back < 7 && Weekday(days - back) == 6
  {
  }

  // The day `back` days before the 31st ...
  lemma BackInMonth(year: int, month: int, back: int, day: int)
    requires month in {3, 10} && 0 <= back < 7
    requires day == DaysFromCivil(Date(year, month, 31)) - back
    ensures CivilFromDays(day) == Date(year, month, 31 - back)
  {
    MonthDay(year, month, 31, -back);
    DateNumbered(Date(year, month, 31 - back), day);
  }

  // ... and a week after it.
  lemma WeekAfter(year: int, month: int, back: int, day: int)
    requires month in {3, 10} && 0 <= back < 7
    requires day == DaysFromCivil(Date(year, month, 31)) + (7 - back)
    ensures CivilFromDays(day) == Date(year, month + 1, 7 - back)
  {
    DayOfNextMonth(year, month, 7 - back);
    DateNumbered(Date(year, month + 1, 7 - back), day);
  }

  lemma SwitchByDays(year: int, month: int)
    ensures var d31 := DaysFromCivil(Date(year, month, 31));
      LastSunday0100(year, month) == (d31 - (Weekday(d31) + 1) % 7) * 86_400 + 3600
  {
    DayNumbersAgree(Date(year, month, 31));
    DatesAgree(DaysFromCivil(Date(year, month, 31)));
  }

  lemma SecondsOfDay(day: int)
    ensures (day * 86_400 + 3600) / 86_400 == day && (day * 86_400 + 3600) % 86_400 == 3600
  {
  }

  lemma SwitchDay(year: int, month: int) returns (day: int, back: int)
    ensures LastSunday0100(year, month) == day * 86_400 + 3600
    ensures 0 <= back < 7 && day == DaysFromCivil(Date(year, month, 31)) - back
    ensures Weekday(day) == 6
  {
    var d31 := DaysFromCivil(Date(year, month, 31));
    back := (Weekday(d31) + 1) % 7;
    day := d31 - back;
    SwitchByDays(year, month);
    BackToSunday(d31);
  }

  // The switch is 3600 s into a day that is a Sunday of that month, with no Sunday of it after.
  lemma SwitchIsOnLastSunday(year: int, month: int)
    requires month in {3, 10}
    ensures var t := LastSunday0100(year, month);
      var day := t / 86_400;
      && t % 86_400 == 3600
      && Weekday(day) == 6
      && CivilFromDays(day).y == year && CivilFromDays(day).m == month
      && CivilFromDays(day + 7).m != month
  {
    var day, back := SwitchDay(year, month);
    BackInMonth(year, month, back, day);
    WeekAfter(year, month, back, day + 7);
    SecondsOfDay(day);
  }

  // Summer time is in force at exactly the instants from the switch in March to the switch in
  // October of the (UTC) year, and local time of day is the shifted instant within its day.
  lemma SummerTimeBetweenTheSwitches(unix: real)
    ensures var year := CivilFromDays((unix / 86_400.0).Floor).y;
      CetOffset(unix)
      == if LastSunday0100(year, 3) as real <= unix < LastSunday0100(year, 10) as real then 7200.0 else 3600.0
    ensures 0.0 <= LocalSecondsOfDay(unix) < 86_400.0
    ensures var days := (unix + CetOffset(unix) - LocalSecondsOfDay(unix)) / 86_400.0;
      days == days.Floor as real
  {
    DatesAgree((unix / 86_400.0).Floor);
  }
}
