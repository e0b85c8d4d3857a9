// The timestamps of compliance reports (iso8601_utc, crates/control/src/compliance.rs:332-347), with the third copy of
// the calendar; how the numbers are written out is not modelled.
module Timestamps {
  import opened Calendar

  datatype Utc = Utc(date: Date, hour: int, minute: int, second: int)

  function DateOfDay(days: int): Date {
    var z := days + 719_468;
    var era := z / 146_097;
    DateInEra(era, z - era * 146_097)
  }

  function DateInEra(era: int, doe: int): Date {
    var yoe := (doe - doe / 1460 + doe / 36_524 - doe / 146_096) / 365;
    var doy := doe - (365 * yoe + yoe / 4 - yoe / 100);
    var mp := (5 * doy + 2) / 153;
    var d := doy - (153 * mp + 2) / 5 + 1;
    var m := if mp < 10 then mp + 3 else mp - 9;
    Date(yoe + era * 400 + (if m <= 2 then 1 else 0), m, d)
  }

  function OfUnixMs(unixMs: int): Utc {
    OfSecond(unixMs / 1000)
  }

  function OfSecond(secs: int): Utc {
    OfDay(secs / 86_400, secs % 86_400)
  }

  function OfDay(days: int, sod: int): Utc {
    Utc(DateOfDay(days), sod / 3600, sod % 3600 / 60, sod % 60)
  }

  // The instant, in whole seconds, that a timestamp reads as.
  function Reads(u: Utc): int {
    DaysFromCivil(u.date) * 86_400 + u.hour * 3600 + u.minute * 60 + u.second
  }

  lemma SameInEra(era: int, doe: int)
    ensures DateInEra(era, doe) == CivilInEra(era, doe)
  {
  }

  // The third copy gives the same dates as the other two.
  lemma ThirdCopyAgrees(days: int)
    ensures DateOfDay(days) == CivilFromDays(days)
  {
    Remainder(days + 719_468);
    SameInEra((days + 719_468) / 146_097, (days + 719_468) % 146_097);
  }

  lemma SecondsOfDay(sod: int)
    requires 0 <= sod < 86_400
    ensures sod / 3600 * 3600 + sod % 3600 / 60 * 60 + sod % 60 == sod
    ensures 0 <= sod / 3600 < 24 && 0 <= sod % 3600 / 60 < 60
  {
  }

  lemma Days(secs: int)
    ensures secs / 86_400 * 86_400 + secs % 86_400 == secs && 0 <= secs % 86_400 < 86_400
  {
  }

  lemma SecondReadsBack(secs: int)
    ensures var u := OfSecond(secs);
      && Valid(u.date) && 0 <= u.hour < 24 && 0 <= u.minute < 60 && 0 <= u.second < 60
      && Reads(u) == secs
  {
    Days(secs);
    SecondsOfDay(secs % 86_400);
    ThirdCopyAgrees(secs / 86_400);
    DaysRoundTrip(secs / 86_400);
  }

  // Before and after 1970 alike, a timestamp is a valid date and time of day, and reads as the second it was made in.
  lemma TimestampNamesTheSecond(unixMs: int)
    ensures var u := OfUnixMs(unixMs);
      && Valid(u.date) && 0 <= u.hour < 24 && 0 <= u.minute < 60 && 0 <= u.second < 60
      && Reads(u) * 1000 <= unixMs < (Reads(u) + 1) * 1000
  {
    SecondReadsBack(unixMs / 1000);
    Milliseconds(Reads(OfUnixMs(unixMs)), unixMs);
  }

  lemma Milliseconds(secs: int, unixMs: int)
    requires secs == unixMs / 1000
    ensures secs * 1000 <= unixMs < (secs + 1) * 1000
  {
  }

  // Two instants get the same timestamp exactly when they are in the same second.
  lemma TimestampsAgreeWithinASecond(a: int, b: int)
    ensures OfUnixMs(a) == OfUnixMs(b) <==> a / 1000 == b / 1000
  {
    SecondsAgree(a / 1000, b / 1000);
  }

  lemma SecondsAgree(s: int, t: int)
    ensures OfSecond(s) == OfSecond(t) <==> s == t
  {
    SecondReadsBack(s);
    SecondReadsBack(t);
  }
}
