// CP56Time2a, the time tag of IEC 60870-5-101, section 7.2.6.18 (crates/iec104/src/time.rs).
module TimeTags {
  import opened Basics
  import opened Calendar

  const MS_PER_DAY := 86_400_000
  const LEN := 7

  datatype TimeTag = TimeTag(
    millisecond: U16, minute: Octet, hour: Octet, day: Octet, weekday: Octet, month: Octet, year: Octet,
    invalid: bool, summerTime: bool)
  {
    // What the seven octets have room for.
    predicate Fits() {
      minute < 64 && hour < 32 && day < 32 && weekday < 8 && month < 16 && year < 128
    }
  }

  datatype TimeError = Truncated

  function FromUnixMs(ms: int): TimeTag {
    var days := ms / MS_PER_DAY;
    var msOfDay := ms % MS_PER_DAY;
    var date := CivilFromDays(days);
    DaysRoundTrip(days);
    var year := date.y - 2000;
    TimeTag(
      msOfDay % 60_000,
      msOfDay / 60_000 % 60,
      msOfDay / 3_600_000,
      date.d,
      Weekday(days) + 1,
      date.m,
      if year < 0 then 0 else if year > 99 then 99 else year,
      false, false)
  }

  function ToUnixMs(t: TimeTag): int {
    var days := DaysFromCivil(Date(2000 + t.year, t.month, t.day));
    days * MS_PER_DAY + t.hour * 3_600_000 + t.minute * 60_000 + t.millisecond
  }

  function Encoding(t: TimeTag): (b: seq<Octet>)
    ensures |b| == LEN
  {
    LeBytes(t.millisecond) +
    [ t.minute % 64 + 128 * Bit(t.invalid),
      t.hour % 32 + 128 * Bit(t.summerTime),
      t.day % 32 + t.weekday % 8 * 32,
      t.month % 16,
      t.year % 128 ]
  }

  method Encode(t: TimeTag, out: seq<Octet>) returns (out': seq<Octet>)
    ensures out' == out + Encoding(t)
  {
    out' := out + LeBytes(t.millisecond);
    out' := out' + [t.minute % 64 + 128 * Bit(t.invalid)];
    out' := out' + [t.hour % 32 + 128 * Bit(t.summerTime)];
    out' := out' + [t.day % 32 + t.weekday % 8 * 32];
    out' := out' + [t.month % 16];
    out' := out' + [t.year % 128];
  }

  function Decode(b: seq<Octet>): Result<TimeTag, TimeError> {
    if |b| < LEN then Err(Truncated)
    else Ok(TimeTag(FromLe(b[0], b[1]), b[2] % 64, b[3] % 32, b[4] % 32, b[4] / 32, b[5] % 16, b[6] % 128,
                    b[2] >= 128, b[3] >= 128))
  }

  // A tag survives the wire exactly when its fields fit.
  lemma RoundTripExactlyIfFits(t: TimeTag, rest: seq<Octet>)
    ensures Decode(Encoding(t) + rest) == Ok(t) <==> t.Fits()
  {
    var b := Encoding(t) + rest;
    assert b[..7] == Encoding(t);
    assert forall i :: 0 <= i < 7 ==> b[i] == Encoding(t)[i];
  }

  lemma TimeOfDay(r: int)
    requires 0 <= r < MS_PER_DAY
    ensures r / 3_600_000 * 3_600_000 + r / 60_000 % 60 * 60_000 + r % 60_000 == r
    ensures r / 3_600_000 < 24
  {
    assert r / 60_000 / 60 == r / 3_600_000;
  }

  lemma FromUnixMsFits(ms: int)
    ensures FromUnixMs(ms).Fits()
    ensures FromUnixMs(ms).hour < 24 && FromUnixMs(ms).minute < 60 && FromUnixMs(ms).millisecond < 60_000
    ensures 1 <= FromUnixMs(ms).weekday <= 7
  {
    DaysRoundTrip(ms / MS_PER_DAY);
    TimeOfDay(ms % MS_PER_DAY);
  }

  // Within 2000 to 2099 the tag keeps the date.
  lemma RoundTripByYear(ms: int)
    ensures ToUnixMs(FromUnixMs(ms)) == ms <==> 2000 <= CivilFromDays(ms / MS_PER_DAY).y <= 2099
  {
    var days := ms / MS_PER_DAY;
    var t := FromUnixMs(ms);
    var date := CivilFromDays(days);
    DaysRoundTrip(days);
    TimeOfDay(ms % MS_PER_DAY);
    var kept := Date(2000 + t.year, t.month, t.day);
    if 2000 <= date.y <= 2099 {
      assert kept == date;
    } else if ToUnixMs(t) == ms {
      assert DaysFromCivil(kept) == days;
      OutOfRangeYearIsLost(date, kept);
    }
  }

  lemma OutOfRangeYearIsLost(date: Date, kept: Date)
    requires Valid(date) && kept.m == date.m && kept.d == date.d && kept.y != date.y
    ensures DaysFromCivil(kept) != DaysFromCivil(date)
  {
    var y1, y2 := if date.m <= 2 then date.y - 1 else date.y, if kept.m <= 2 then kept.y - 1 else kept.y;
    MarchYearsIncrease(y1, y2);
  }

  lemma MarchYearsIncrease(y1: int, y2: int)
    requires y1 != y2
    ensures y1 / 400 * 146_097 + y1 % 400 * 365 + y1 % 400 / 4 - y1 % 400 / 100
            != y2 / 400 * 146_097 + y2 % 400 * 365 + y2 % 400 / 4 - y2 % 400 / 100
  {
    var a, b := y1 % 400, y2 % 400;
    YearStartIsMonotone(a, 400);
    YearStartIsMonotone(b, 400);
    YearStartIsMonotone(0, a);
    YearStartIsMonotone(0, b);
    YearLength(a);
    YearLength(b);
    if a < b {
      YearStartIsMonotone(a + 1, b);
    } else if b < a {
      YearStartIsMonotone(b + 1, a);
    }
    YearStartIsMonotone(a + 1, 400);
    YearStartIsMonotone(b + 1, 400);
    assert YearStart(a) == a * 365 + a / 4 - a / 100 && YearStart(b) == b * 365 + b / 4 - b / 100;
  }

  lemma YearStep(days: int)
    ensures CivilFromDays(days).y <= CivilFromDays(days + 1).y
  {
    NextNumberIsNextDay(days);
  }

  lemma {:induction false} YearsIncrease(a: int, b: int)
    requires a <= b
    ensures CivilFromDays(a).y <= CivilFromDays(b).y
    decreases b - a
  {
    if a < b {
      YearsIncrease(a, b - 1);
      YearStep(b - 1);
    }
  }

  lemma NewYear2000()
    ensures CivilFromDays(10_957) == Date(2000, 1, 1)
  {
    DateNumbered(Date(2000, 1, 1), 10_957);
  }

  lemma NewYearsEve1999()
    ensures CivilFromDays(10_956) == Date(1999, 12, 31)
  {
    DateNumbered(Date(1999, 12, 31), 10_956);
  }

  lemma NewYear2100()
    ensures CivilFromDays(47_482) == Date(2100, 1, 1)
  {
    DateNumbered(Date(2100, 1, 1), 47_482);
  }

  lemma NewYearsEve2099()
    ensures CivilFromDays(47_481) == Date(2099, 12, 31)
  {
    DateNumbered(Date(2099, 12, 31), 47_481);
  }

  lemma ThisCenturyByDays(days: int)
    ensures 2000 <= CivilFromDays(days).y <= 2099 <==> 10_957 <= days < 47_482
  {
    if days <= 10_956 {
      NewYearsEve1999();
      YearsIncrease(days, 10_956);
    } else if days <= 47_481 {
      NewYear2000();
      NewYearsEve2099();
      YearsIncrease(10_957, days);
      YearsIncrease(days, 47_481);
    } else {
      NewYear2100();
      YearsIncrease(47_482, days);
    }
  }

  // An instant comes back from its tag exactly when it lies in 2000 to 2099:
  // from 2000-01-01T00:00:00.000Z up to, but not including, 2100-01-01T00:00:00.000Z.
  lemma RoundTripExactlyThisCentury(ms: int)
    ensures ToUnixMs(FromUnixMs(ms)) == ms <==> 946_684_800_000 <= ms < 4_102_444_800_000
  {
    RoundTripByYear(ms);
    ThisCenturyByDays(ms / MS_PER_DAY);
  }
}
