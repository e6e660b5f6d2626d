/**
 * The date logic of ReminderBot.ts: decoding the callback data of a pressed
 * calendar button, the cut-off that refuses dates whose ticket booking has
 * already opened (sixty days ahead), and the pair of reminder instants (the
 * selected date moved sixty days back, at 02:15 and at 04:15) written as
 * `YYYYMMDDTHHmmss` stamps followed by a literal `Z`.
 *
 * The ambient `new Date()` is passed in as a `Clock`; the bot's replies are
 * modelled by the decision they carry (`Reply`), not by their text.
 */
module ReminderBot {
  import opened CivilDates
  import opened DecimalText
  import opened CalendarEngine

  /** How many days before the travel date booking opens. */
  const OffsetDays := 60

  const MsPerDay := 86400000

  /** The current instant: a date and the milliseconds elapsed since its midnight. */
  datatype Clock = Clock(date: Date, msOfDay: int)

  predicate ValidClock(now: Clock) {
    ValidDate(now.date) && 0 <= now.msOfDay < MsPerDay
  }

  /** `Date.getTime` of the clock, in the wall-clock model. */
  function NowMs(now: Clock): int
    requires 0 <= now.date.month < 12
  {
    DayNumber(now.date) * MsPerDay + now.msOfDay
  }

  // ---------------------------------------------------------------------
  // The reminder instants

  /** The time of day of a reminder: 02:15:00 for the first, 04:15:00 for the second. */
  function ReminderHour(first: bool): int {
    if first then 2 else 4
  }

  /** The reminder instant: the day `OffsetDays` before `date`, at the reminder's time of day. */
  function ReminderSeconds(date: Date, first: bool): int
    requires 0 <= date.month < 12
  {
    (DayNumber(date) - OffsetDays) * SecondsPerDay + ReminderHour(first) * 3600 + 15 * 60
  }

  /**
   * `reduceDaysAndSetTime`: a copy of `date` moved back sixty days by
   * `setDate` (borrowing from earlier months and years), set to 02:15 or
   * 04:15, read back in whole seconds. An invalid date stays invalid and
   * gives `NaN` (`None`).
   */
  method ReduceDaysAndSetTime(date: JsDate, first: bool) returns (secs: Option<int>)
    requires date.Day? ==> ValidDate(date.date)
    ensures date.Day? ==> secs == Some(ReminderSeconds(date.date, first))
    ensures date == InvalidDate ==> secs == None
  {
    if date == InvalidDate {
      return None;
    }
    var d := date.date;
    var reduced := MakeDate(d.year, d.month, d.day - OffsetDays);
    assert d.month / 12 == 0 && d.month % 12 == d.month;
    var time := if first then DateTime(reduced, 2, 15, 0) else DateTime(reduced, 4, 15, 0);
    secs := Some(EpochSeconds(time));
  }

  /** The reminder falls on the day sixty days before `date`, at 02:15:00 or 04:15:00. */
  lemma ReminderTimeOfDay(date: Date, first: bool)
    requires ValidDate(date)
    ensures ReminderSeconds(date, first) / SecondsPerDay == DayNumber(date) - OffsetDays
    ensures ReminderSeconds(date, first) % SecondsPerDay == if first then 2 * 3600 + 15 * 60 else 4 * 3600 + 15 * 60
  {
    var t := ReminderSeconds(date, first);
    var q := DayNumber(date) - OffsetDays;
    var r := ReminderHour(first) * 3600 + 15 * 60;
    assert t == q * SecondsPerDay + r && 0 <= r < SecondsPerDay;
  }

  /** The first reminder comes exactly two hours before the second. */
  lemma RemindersTwoHoursApart(date: Date)
    requires ValidDate(date)
    ensures ReminderSeconds(date, true) < ReminderSeconds(date, false)
    ensures ReminderSeconds(date, false) - ReminderSeconds(date, true) == 7200
  {
  }

  /** The reminder of a date is the same instant as 02:15 or 04:15 on any valid date sixty days earlier. */
  lemma ReminderOnBaseDate(date: Date, base: Date, first: bool)
    requires ValidDate(date) && ValidDate(base)
    requires DayNumber(base) == DayNumber(date) - OffsetDays
    ensures ReminderSeconds(date, first) == EpochSeconds(DateTime(base, ReminderHour(first), 15, 0))
  {
  }

  /** Sixty days before 2025-12-25 is 2025-10-26. */
  lemma ChristmasBaseDate()
    ensures DayNumber(Date(2025, 9, 26)) == DayNumber(Date(2025, 11, 25)) - OffsetDays
  {
    assert FirstDayNumber(2025, 9) == 20362;
    assert FirstDayNumber(2025, 11) == 20423;
  }

  // ---------------------------------------------------------------------
  // Stamps

  /** moment's `format("YYYYMMDDTHHmmss")` followed by the literal `Z`. */
  function Stamp(t: DateTime): string {
    ZeroFill(t.date.year, 4) + ZeroFill(t.date.month + 1, 2) + ZeroFill(t.date.day, 2) + "T"
      + ZeroFill(t.hour, 2) + ZeroFill(t.minute, 2) + ZeroFill(t.second, 2) + "Z"
  }

  /** `s` is the stamp of the wall-clock instant `secs` seconds after the epoch. */
  ghost predicate IsStampOf(s: string, secs: int) {
    exists t :: ValidDateTime(t) && EpochSeconds(t) == secs && s == Stamp(t)
  }

  /** Reads a stamp back: eight digits, `T`, six digits, `Z`, naming a valid instant. */
  function ParseStamp(s: string): (r: Option<DateTime>)
    ensures r.Some? ==> ValidDateTime(r.value) && |s| == 16
  {
    if |s| == 16 && AllDigits(s[..4]) && AllDigits(s[4..6]) && AllDigits(s[6..8]) && s[8] == 'T'
       && AllDigits(s[9..11]) && AllDigits(s[11..13]) && AllDigits(s[13..15]) && s[15] == 'Z'
    then
      var t := DateTime(Date(ParseDigits(s[..4]), ParseDigits(s[4..6]) - 1, ParseDigits(s[6..8])),
                        ParseDigits(s[9..11]), ParseDigits(s[11..13]), ParseDigits(s[13..15]));
      if ValidDateTime(t) then Some(t) else None
    else None
  }

  /** The fields of a sixteen-character stamp sit at fixed offsets. */
  lemma StampSlices(y: string, mo: string, d: string, h: string, mi: string, se: string)
    requires |y| == 4 && |mo| == 2 && |d| == 2 && |h| == 2 && |mi| == 2 && |se| == 2
    ensures var s := y + mo + d + "T" + h + mi + se + "Z";
            && |s| == 16
            && s[..4] == y && s[4..6] == mo && s[6..8] == d && s[8] == 'T'
            && s[9..11] == h && s[11..13] == mi && s[13..15] == se && s[15] == 'Z'
            && s[..8] == y + mo + d && s[9..15] == h + mi + se
  {
    var s := y + mo + d + "T" + h + mi + se + "Z";
    assert s == (y + mo + d) + "T" + (h + mi + se) + "Z";
  }

  /** A string of stamp shape is the concatenation of its fields. */
  lemma StampJoin(s: string)
    requires |s| == 16
    ensures s == s[..4] + s[4..6] + s[6..8] + "T" + s[9..11] + s[11..13] + s[13..15] + "Z" <==> s[8] == 'T' && s[15] == 'Z'
  {
    var j := s[..4] + s[4..6] + s[6..8] + "T" + s[9..11] + s[11..13] + s[13..15] + "Z";
    if s[8] == 'T' && s[15] == 'Z' {
      assert forall i :: 0 <= i < 16 ==> s[i] == j[i];
    }
  }

  /** With every field small enough, the stamp is made of fixed-width fields. */
  lemma StampFixed(t: DateTime)
    requires ValidDateTime(t) && 0 <= t.date.year <= 9999
    ensures Stamp(t) == FixedStamp(t)
  {
    assert Pow10(2) == 100 && Pow10(4) == 10000;
    ZeroFillIsFixed(t.date.year, 4);
    ZeroFillIsFixed(t.date.month + 1, 2);
    ZeroFillIsFixed(t.date.day, 2);
    ZeroFillIsFixed(t.hour, 2);
    ZeroFillIsFixed(t.minute, 2);
    ZeroFillIsFixed(t.second, 2);
  }

  /** A stamp-shaped string whose fields hold the numbers of a valid instant reads back as that instant. */
  lemma ParseStampOfFields(s: string, t: DateTime)
    requires ValidDateTime(t) && |s| == 16 && s[8] == 'T' && s[15] == 'Z'
    requires AllDigits(s[..4]) && AllDigits(s[4..6]) && AllDigits(s[6..8])
    requires AllDigits(s[9..11]) && AllDigits(s[11..13]) && AllDigits(s[13..15])
    requires ParseDigits(s[..4]) == t.date.year && ParseDigits(s[4..6]) == t.date.month + 1
    requires ParseDigits(s[6..8]) == t.date.day && ParseDigits(s[9..11]) == t.hour
    requires ParseDigits(s[11..13]) == t.minute && ParseDigits(s[13..15]) == t.second
    ensures ParseStamp(s) == Some(t)
  {
  }

  /** The fixed-width fields of a valid instant, joined, read back as that instant. */
  function FixedStamp(t: DateTime): string
    requires ValidDateTime(t) && 0 <= t.date.year
  {
    FixedDigits(t.date.year, 4) + FixedDigits(t.date.month + 1, 2) + FixedDigits(t.date.day, 2) + "T"
      + FixedDigits(t.hour, 2) + FixedDigits(t.minute, 2) + FixedDigits(t.second, 2) + "Z"
  }

  /** Six digit fields holding the numbers of a valid instant, joined as a stamp, read back as that instant. */
  lemma ParseJoined(y: string, mo: string, d: string, h: string, mi: string, se: string, t: DateTime)
    requires |y| == 4 && |mo| == 2 && |d| == 2 && |h| == 2 && |mi| == 2 && |se| == 2
    requires AllDigits(y) && AllDigits(mo) && AllDigits(d) && AllDigits(h) && AllDigits(mi) && AllDigits(se)
    requires ValidDateTime(t)
    requires ParseDigits(y) == t.date.year && ParseDigits(mo) == t.date.month + 1 && ParseDigits(d) == t.date.day
    requires ParseDigits(h) == t.hour && ParseDigits(mi) == t.minute && ParseDigits(se) == t.second
    ensures var s := y + mo + d + "T" + h + mi + se + "Z";
            && |s| == 16
            && AllDigits(s[..8]) && s[8] == 'T' && AllDigits(s[9..15]) && s[15] == 'Z'
            && ParseStamp(s) == Some(t)
  {
    StampSlices(y, mo, d, h, mi, se);
    var s := y + mo + d + "T" + h + mi + se + "Z";
    assert AllDigits(y + mo + d) && AllDigits(h + mi + se);
    ParseStampOfFields(s, t);
  }

  /**
   * A stamp of a year from 0 to 9999 is sixteen characters: eight digits,
   * `T`, six digits, `Z`; and it reads back as the instant it was made from.
   */
  lemma StampRoundTrip(t: DateTime)
    requires ValidDateTime(t) && 0 <= t.date.year <= 9999
    ensures var s := Stamp(t);
            && |s| == 16
            && AllDigits(s[..8]) && s[8] == 'T' && AllDigits(s[9..15]) && s[15] == 'Z'
            && ParseStamp(s) == Some(t)
  {
    var y, mo, d := FixedDigits(t.date.year, 4), FixedDigits(t.date.month + 1, 2), FixedDigits(t.date.day, 2);
    var h, mi, se := FixedDigits(t.hour, 2), FixedDigits(t.minute, 2), FixedDigits(t.second, 2);
    assert Stamp(t) == y + mo + d + "T" + h + mi + se + "Z" by {
      StampFixed(t);
    }
    assert Pow10(2) == 100 && Pow10(4) == 10000;
    assert ParseDigits(y) == t.date.year by { ParseFixedDigits(t.date.year, 4); }
    assert ParseDigits(mo) == t.date.month + 1 by { ParseFixedDigits(t.date.month + 1, 2); }
    assert ParseDigits(d) == t.date.day by { ParseFixedDigits(t.date.day, 2); }
    assert ParseDigits(h) == t.hour by { ParseFixedDigits(t.hour, 2); }
    assert ParseDigits(mi) == t.minute by { ParseFixedDigits(t.minute, 2); }
    assert ParseDigits(se) == t.second by { ParseFixedDigits(t.second, 2); }
    ParseJoined(y, mo, d, h, mi, se, t);
  }

  /** Every string that reads back as an instant is that instant's stamp. */
  lemma ParseStampExact(s: string)
    requires ParseStamp(s).Some?
    ensures Stamp(ParseStamp(s).value) == s
  {
    var t := ParseStamp(s).value;
    FixedDigitsOfParse(s[..4]);
    FixedDigitsOfParse(s[4..6]);
    FixedDigitsOfParse(s[6..8]);
    FixedDigitsOfParse(s[9..11]);
    FixedDigitsOfParse(s[11..13]);
    FixedDigitsOfParse(s[13..15]);
    StampFixed(t);
    StampJoin(s);
  }

  /** An instant has one stamp. */
  lemma StampUnique(s1: string, s2: string, secs: int)
    requires IsStampOf(s1, secs) && IsStampOf(s2, secs)
    ensures s1 == s2
  {
    var t1 :| ValidDateTime(t1) && EpochSeconds(t1) == secs && s1 == Stamp(t1);
    var t2 :| ValidDateTime(t2) && EpochSeconds(t2) == secs && s2 == Stamp(t2);
    EpochSecondsInjective(t1, t2);
  }

  /** What moment's `format` gives for an invalid date. */
  const InvalidDateText := "Invalid date"

  /**
   * `moment(new Date(secs * 1000)).format("YYYYMMDDTHHmmss") + "Z"`; `None`
   * stands for `NaN` seconds, which make an invalid date.
   */
  method FormatInstant(secs: Option<int>) returns (s: string)
    ensures secs.Some? ==> IsStampOf(s, secs.value)
    ensures secs == None ==> s == InvalidDateText + "Z"
  {
    if secs == None {
      return InvalidDateText + "Z";
    }
    var t := FromEpochSeconds(secs.value);
    s := Stamp(t);
  }

  /** `getEventDate`: the stamps of the two reminder instants of `date`. */
  method GetEventDate(date: JsDate) returns (dates: (string, string))
    requires date.Day? ==> ValidDate(date.date)
    ensures date.Day? ==> IsStampOf(dates.0, ReminderSeconds(date.date, true))
    ensures date.Day? ==> IsStampOf(dates.1, ReminderSeconds(date.date, false))
    ensures date == InvalidDate ==> dates == (InvalidDateText + "Z", InvalidDateText + "Z")
  {
    var start := ReduceDaysAndSetTime(date, true);
    var end := ReduceDaysAndSetTime(date, false);
    var first := FormatInstant(start);
    var second := FormatInstant(end);
    dates := (first, second);
  }

  lemma FixedDigitsTwo(n: nat)
    requires n < 100
    ensures FixedDigits(n, 2) == [DigitChar(n / 10), DigitChar(n % 10)]
  {
    assert FixedDigits(n, 2) == FixedDigits(n / 10, 1) + [DigitChar(n % 10)];
    assert FixedDigits(n / 10, 1) == FixedDigits(n / 10 / 10, 0) + [DigitChar(n / 10 % 10)];
    assert n / 10 < 10;
    assert n / 10 % 10 == n / 10;
  }

  lemma YearDigits()
    ensures FixedDigits(2025, 4) == "2025"
  {
    assert 2025 / 10 == 202 && 2025 % 10 == 5 && 202 / 10 == 20 && 202 % 10 == 2;
    assert DigitChar(5) == '5' && DigitChar(2) == '2' && DigitChar(0) == '0';
    assert FixedDigits(202, 3) == FixedDigits(20, 2) + [DigitChar(2)];
    assert FixedDigits(2025, 4) == FixedDigits(202, 3) + [DigitChar(5)];
    FixedDigitsTwo(20);
  }

  lemma ChristmasDigits()
    ensures FixedDigits(2025, 4) == "2025" && FixedDigits(10, 2) == "10" && FixedDigits(26, 2) == "26"
    ensures FixedDigits(2, 2) == "02" && FixedDigits(4, 2) == "04"
    ensures FixedDigits(15, 2) == "15" && FixedDigits(0, 2) == "00"
  {
    YearDigits();
    FixedDigitsTwo(10);
    FixedDigitsTwo(26);
    FixedDigitsTwo(2);
    FixedDigitsTwo(4);
    FixedDigitsTwo(15);
    FixedDigitsTwo(0);
  }

  /** The fixed-width fields of 2025-10-26 at `hour`:15:00. */
  lemma ChristmasFields(hour: int)
    requires hour == 2 || hour == 4
    ensures FixedStamp(DateTime(Date(2025, 9, 26), hour, 15, 0))
      == if hour == 2 then "20251026T021500Z" else "20251026T041500Z"
  {
    ChristmasDigits();
    var hh := if hour == 2 then "02" else "04";
    var j := "2025" + "10" + "26" + "T" + hh + "15" + "00" + "Z";
    assert FixedStamp(DateTime(Date(2025, 9, 26), hour, 15, 0)) == j;
    var lit := if hour == 2 then "20251026T021500Z" else "20251026T041500Z";
    assert |j| == 16 == |lit|;
    assert forall i | 0 <= i < 16 :: j[i] == lit[i];
  }

  /** The stamp of 02:15 or 04:15 on 2025-10-26. */
  lemma ChristmasStamp(hour: int)
    requires hour == 2 || hour == 4
    ensures Stamp(DateTime(Date(2025, 9, 26), hour, 15, 0))
      == if hour == 2 then "20251026T021500Z" else "20251026T041500Z"
  {
    StampFixed(DateTime(Date(2025, 9, 26), hour, 15, 0));
    ChristmasFields(hour);
  }

  /** The reminder instants of 2025-12-25 have these stamps. */
  lemma ChristmasIsStamp()
    ensures IsStampOf("20251026T021500Z", ReminderSeconds(Date(2025, 11, 25), true))
    ensures IsStampOf("20251026T041500Z", ReminderSeconds(Date(2025, 11, 25), false))
  {
    var christmas, base := Date(2025, 11, 25), Date(2025, 9, 26);
    ChristmasBaseDate();
    ReminderOnBaseDate(christmas, base, true);
    ReminderOnBaseDate(christmas, base, false);
    ChristmasStamp(2);
    ChristmasStamp(4);
    assert ValidDateTime(DateTime(base, 2, 15, 0)) && ValidDateTime(DateTime(base, 4, 15, 0));
  }

  /** A trip on 2025-12-25 is reminded of on 2025-10-26 at 02:15 and 04:15. */
  method ChristmasReminders() returns (dates: (string, string))
    ensures dates == ("20251026T021500Z", "20251026T041500Z")
  {
    var christmas := Date(2025, 11, 25);
    dates := GetEventDate(Day(christmas));
    ChristmasIsStamp();
    StampUnique(dates.0, "20251026T021500Z", ReminderSeconds(christmas, true));
    StampUnique(dates.1, "20251026T041500Z", ReminderSeconds(christmas, false));
  }

  // ---------------------------------------------------------------------
  // The sixty-day cut-off

  /** `Math.floor((selectedDate.getTime() - today.getTime()) / 86400000)`, the selected date taken at midnight. */
  function DiffInDays(selected: Date, now: Clock): int
    requires 0 <= selected.month < 12 && 0 <= now.date.month < 12
  {
    (DayNumber(selected) * MsPerDay - NowMs(now)) / MsPerDay
  }

  /**
   * The difference counts whole days from now to the selected midnight: the
   * calendar distance of the two dates, one less unless it is exactly midnight.
   */
  lemma DiffInDaysIsDayDistance(selected: Date, now: Clock)
    requires ValidDate(selected) && ValidClock(now)
    ensures DiffInDays(selected, now)
      == DayNumber(selected) - DayNumber(now.date) - (if now.msOfDay == 0 then 0 else 1)
  {
    var k := DayNumber(selected) - DayNumber(now.date);
    var x := DayNumber(selected) * MsPerDay - NowMs(now);
    assert x == k * MsPerDay - now.msOfDay;
    if now.msOfDay == 0 {
      assert x / MsPerDay == k;
    } else {
      assert x == (k - 1) * MsPerDay + (MsPerDay - now.msOfDay);
      assert x / MsPerDay == k - 1;
    }
  }

  /**
   * A date is accepted exactly when it lies at least 61 days after today,
   * or at least 62 once today's midnight has passed.
   */
  lemma BookingWindow(selected: Date, now: Clock)
    requires ValidDate(selected) && ValidClock(now)
    ensures DiffInDays(selected, now) > OffsetDays
      <==> DayNumber(selected) - DayNumber(now.date) > OffsetDays + (if now.msOfDay == 0 then 0 else 1)
  {
    DiffInDaysIsDayDistance(selected, now);
  }

  /** Both reminders of an accepted date are still ahead of now. */
  lemma RemindersInFuture(selected: Date, now: Clock)
    requires ValidDate(selected) && ValidClock(now)
    requires DiffInDays(selected, now) > OffsetDays
    ensures NowMs(now) < ReminderSeconds(selected, true) * 1000 < ReminderSeconds(selected, false) * 1000
  {
    DiffInDaysIsDayDistance(selected, now);
  }

  /** 2025-06-15 seen at noon on 2025-06-01 is thirteen whole days away, so it is refused. */
  lemma NearDateRefused()
    ensures DiffInDays(Date(2025, 5, 15), Clock(Date(2025, 5, 1), 43200000)) == 13
  {
    DiffInDaysIsDayDistance(Date(2025, 5, 15), Clock(Date(2025, 5, 1), 43200000));
  }

  // ---------------------------------------------------------------------
  // Callback data

  /** What a pressed button asks for; a chosen day that is not a number is `None`. */
  datatype Event =
    | Ignore
    | PrevMonth
    | NextMonth
    | DateChosen(day: Option<int>)
    | Unrecognised

  /** The characters `parseInt` skips before a number. */
  predicate IsSpace(c: char) {
    c == ' ' || c == '\t' || c == '\n' || c == '\r' || c == '\U{B}' || c == '\U{C}'
      || c == '\U{A0}' || c == '\U{FEFF}' || c == '\U{2028}' || c == '\U{2029}'
  }

  predicate IsHexDigit(c: char) {
    IsDigit(c) || 'a' <= c <= 'f' || 'A' <= c <= 'F'
  }

  function HexValue(c: char): (k: int)
    requires IsHexDigit(c)
    ensures 0 <= k < 16
  {
    if IsDigit(c) then DigitValue(c)
    else if 'a' <= c <= 'f' then c as int - 'a' as int + 10
    else c as int - 'A' as int + 10
  }

  /** The longest prefix of `s` made of characters satisfying `p`. */
  function TakeWhile(s: string, p: char -> bool): (r: string)
    ensures |r| <= |s| && r == s[..|r|]
    ensures forall i :: 0 <= i < |r| ==> p(r[i])
    ensures |r| < |s| ==> !p(s[|r|])
  {
    if s == [] || !p(s[0]) then [] else [s[0]] + TakeWhile(s[1..], p)
  }

  /** `s` without its leading white space. */
  function DropSpaces(s: string): (r: string)
    ensures |r| <= |s| && r == s[|s| - |r|..]
    ensures forall i :: 0 <= i < |s| - |r| ==> IsSpace(s[i])
    ensures r != [] ==> !IsSpace(r[0])
  {
    if s != [] && IsSpace(s[0]) then DropSpaces(s[1..]) else s
  }

  function ParseHex(s: string): nat
    requires forall i :: 0 <= i < |s| ==> IsHexDigit(s[i])
  {
    if s == [] then 0 else ParseHex(s[..|s| - 1]) * 16 + HexValue(s[|s| - 1])
  }

  /** The magnitude `parseInt` reads after the sign: hexadecimal after `0x`, decimal otherwise. */
  function ParseMagnitude(s: string): Option<nat> {
    if |s| >= 2 && s[0] == '0' && (s[1] == 'x' || s[1] == 'X') then
      var h := TakeWhile(s[2..], IsHexDigit);
      if h == [] then None else Some(ParseHex(h))
    else
      var d := TakeWhile(s, IsDigit);
      if d == [] then None else Some(ParseDigits(d))
  }

  /** `parseInt(s)`: `None` stands for `NaN`. */
  function ParseInt(s: string): Option<int> {
    var t := DropSpaces(s);
    var negative := t != [] && t[0] == '-';
    var rest := if t != [] && (t[0] == '-' || t[0] == '+') then t[1..] else t;
    match ParseMagnitude(rest)
    case None => None
    case Some(n) =>
      var value: int := if negative then -(n as int) else n;
      Some(value)
  }

  /** The second field of `s.split("_")` when `s` starts with `date_`: the text up to the next `_`. */
  function DateField(data: string): string
    requires |data| >= 5
  {
    TakeWhile(data[5..], c => c != '_')
  }

  /** The dispatch of the callback handler on the callback data. */
  function ParseCallback(data: string): Event {
    if data == "ignore" then Ignore
    else if data == "prev_month" then PrevMonth
    else if data == "next_month" then NextMonth
    else if |data| >= 5 && data[..5] == "date_" then DateChosen(ParseInt(DateField(data)))
    else Unrecognised
  }

  /** What pressing a button of the keyboard asks for. */
  function EventOf(c: Cell): Event {
    match c
    case NavPrev => PrevMonth
    case NavNext => NextMonth
    case DaySelectable(d) => DateChosen(Some(d))
    case _ => Ignore
  }

  lemma {:induction false} TakeWhileAll(s: string, p: char -> bool)
    requires forall i :: 0 <= i < |s| ==> p(s[i])
    ensures TakeWhile(s, p) == s
  {
    if s != [] {
      TakeWhileAll(s[1..], p);
      assert s == [s[0]] + s[1..];
    }
  }

  /** `parseInt` reads the digits `toString` prints as the number they print. */
  lemma ParseMagnitudeOfDigits(m: nat)
    ensures ParseMagnitude(Digits(m)) == Some(m)
  {
    var digits := Digits(m);
    ParseDigitsOfDigits(m);
    TakeWhileAll(digits, IsDigit);
  }

  /** `parseInt` inverts `toString` on integers. */
  lemma ParseIntOfString(n: int)
    ensures ParseInt(IntToString(n)) == Some(n)
  {
    var m := if n < 0 then -n else n;
    ParseMagnitudeOfDigits(m);
    var s := IntToString(n);
    assert !IsSpace(s[0]);
    assert DropSpaces(s) == s;
    if n < 0 {
      assert s[1..] == Digits(m);
    } else {
      assert IsDigit(s[0]);
    }
  }

  /** After `0x`, the magnitude is the hexadecimal digits read in base 16. */
  lemma ParseMagnitudeOfHex(s: string)
    requires |s| > 2 && s[..2] == "0x"
    requires forall i :: 2 <= i < |s| ==> IsHexDigit(s[i])
    ensures ParseMagnitude(s) == Some(ParseHex(s[2..]))
  {
    assert s[0] == '0' && s[1] == 'x';
    TakeWhileAll(s[2..], IsHexDigit);
  }

  /** After `0x`, `parseInt` reads the hexadecimal digits as a base-16 number. */
  lemma ParseIntOfHex(s: string)
    requires |s| > 2 && s[..2] == "0x"
    requires forall i :: 2 <= i < |s| ==> IsHexDigit(s[i])
    ensures ParseInt(s) == Some(ParseHex(s[2..]))
  {
    assert s[0] == '0';
    assert DropSpaces(s) == s;
    ParseMagnitudeOfHex(s);
  }

  /** After `-0x`, `parseInt` reads the hexadecimal digits as a negated base-16 number. */
  lemma ParseIntOfNegativeHex(s: string)
    requires |s| > 3 && s[..3] == "-0x"
    requires forall i :: 3 <= i < |s| ==> IsHexDigit(s[i])
    ensures ParseInt(s) == Some(-(ParseHex(s[3..]) as int))
  {
    assert s[0] == '-';
    assert DropSpaces(s) == s;
    var rest := s[1..];
    assert rest[..2] == "0x" && rest[2..] == s[3..];
    ParseMagnitudeOfHex(rest);
  }

  /** The three fixed callback strings dispatch to their own events. */
  lemma FixedCallbacks()
    ensures ParseCallback("ignore") == Ignore
    ensures ParseCallback("prev_month") == PrevMonth
    ensures ParseCallback("next_month") == NextMonth
  {
    assert "next_month"[0] != "prev_month"[0];
  }

  /** `date_N` for the decimal text of any integer `N` selects day `N`. */
  lemma DateCallback(d: int)
    ensures ParseCallback("date_" + IntToString(d)) == DateChosen(Some(d))
  {
    var data := "date_" + IntToString(d);
    var text := IntToString(d);
    assert data != "ignore" && data != "prev_month" && data != "next_month" by {
      assert data[0] == 'd';
    }
    assert |data| >= 5 && data[..5] == "date_";
    assert DateField(data) == text by {
      assert data[5..] == text;
      TakeWhileAll(text, x => x != '_');
    }
    assert ParseInt(text) == Some(d) by {
      ParseIntOfString(d);
    }
  }

  /** The callback data of every button decodes to what that button asks for. */
  lemma CallbackRoundTrip(c: Cell)
    ensures ParseCallback(Button(c).1) == EventOf(c)
  {
    FixedCallbacks();
    if c.DaySelectable? {
      DateCallback(c.day);
    }
  }

  // ---------------------------------------------------------------------
  // The callback handler

  /** The outcome of a callback, in place of the messages sent back. */
  datatype Reply =
    | Acknowledged
    | Rerendered(keyboard: Grid)
    | BookingAlreadyStarted
    | ReminderLink(selected: JsDate, dates: (string, string))

  /**
   * The `date_` branch of the handler: select `day` of the displayed month,
   * then refuse it when booking has opened or answer with the reminder stamps.
   */
  method AnswerDate(calendar: Calendar, day: Option<int>, now: Clock) returns (reply: Reply)
    requires calendar.Valid() && ValidClock(now)
    modifies calendar`selectedDate
    ensures calendar.Valid()
    ensures day == None ==>
              && calendar.selectedDate == Some(InvalidDate)
              && reply == ReminderLink(InvalidDate, (InvalidDateText + "Z", InvalidDateText + "Z"))
    ensures day.Some? ==>
              && calendar.selectedDate.Some? && calendar.selectedDate.value.Day?
              && DayNumber(calendar.selectedDate.value.date)
                 == FirstDayNumber(FullYear(calendar.currentYear), calendar.currentMonth) + day.value - 1
              && (reply == BookingAlreadyStarted <==> DiffInDays(calendar.selectedDate.value.date, now) <= OffsetDays)
              && (reply != BookingAlreadyStarted ==>
                    && reply.ReminderLink? && reply.selected == calendar.selectedDate.value
                    && IsStampOf(reply.dates.0, ReminderSeconds(calendar.selectedDate.value.date, true))
                    && IsStampOf(reply.dates.1, ReminderSeconds(calendar.selectedDate.value.date, false)))
  {
    calendar.SelectDate(day);
    var selected := calendar.GetSelectedDate();
    var selectedDate := selected.value;
    // For the invalid date the difference is NaN, and `NaN <= 60` is false
    if selectedDate.Day? && DiffInDays(selectedDate.date, now) <= OffsetDays {
      return BookingAlreadyStarted;
    }
    var dates := GetEventDate(selectedDate);
    return ReminderLink(selectedDate, dates);
  }

  /**
   * The handler once the callback data is decoded: `Ignore` changes nothing;
   * the navigation controls move the displayed month one step and redraw it;
   * a chosen day is selected and either refused (sixty days or less away) or
   * answered with the two reminder stamps, and a day that is not a number
   * selects the invalid date, which no comparison refuses; anything else
   * redraws the calendar unchanged.
   */
  method HandleEvent(calendar: Calendar, event: Event, now: Clock) returns (reply: Reply)
    requires calendar.Valid() && ValidClock(now)
    modifies calendar
    ensures calendar.Valid()
    ensures event == Ignore ==>
              reply == Acknowledged && unchanged(calendar)
    ensures event == Unrecognised ==>
              reply == Rerendered(Keyboard(calendar.currentYear, calendar.currentMonth, now.date))
              && unchanged(calendar)
    ensures (event == PrevMonth || event == NextMonth) ==>
              && MonthIndex(calendar.currentYear, calendar.currentMonth)
                 == old(MonthIndex(calendar.currentYear, calendar.currentMonth))
                    + (if event == NextMonth then 1 else -1)
              && calendar.selectedDate == old(calendar.selectedDate)
              && reply == Rerendered(Keyboard(calendar.currentYear, calendar.currentMonth, now.date))
    ensures event.DateChosen? ==>
              && calendar.currentYear == old(calendar.currentYear)
              && calendar.currentMonth == old(calendar.currentMonth)
    ensures event == DateChosen(None) ==>
              && calendar.selectedDate == Some(InvalidDate)
              && reply == ReminderLink(InvalidDate, (InvalidDateText + "Z", InvalidDateText + "Z"))
    ensures event.DateChosen? && event.day.Some? ==>
              && calendar.selectedDate.Some? && calendar.selectedDate.value.Day?
              && DayNumber(calendar.selectedDate.value.date)
                 == FirstDayNumber(FullYear(calendar.currentYear), calendar.currentMonth) + event.day.value - 1
              && (reply == BookingAlreadyStarted <==> DiffInDays(calendar.selectedDate.value.date, now) <= OffsetDays)
              && (reply != BookingAlreadyStarted ==>
                    && reply.ReminderLink? && reply.selected == calendar.selectedDate.value
                    && IsStampOf(reply.dates.0, ReminderSeconds(calendar.selectedDate.value.date, true))
                    && IsStampOf(reply.dates.1, ReminderSeconds(calendar.selectedDate.value.date, false)))
  {
    if event == Ignore {
      return Acknowledged;
    }
    if event == PrevMonth {
      calendar.ChangeMonth(Prev);
    } else if event == NextMonth {
      calendar.ChangeMonth(Next);
    } else if event.DateChosen? {
      reply := AnswerDate(calendar, event.day, now);
      return;
    }
    var updated := calendar.GenerateInlineKeyboard(now.date);
    reply := Rerendered(updated);
  }

  /**
   * `bot.on("callback_query:data", …)` on one calendar: the callback data
   * decoded by `ParseCallback`, then handled as its event.
   */
  method HandleCallback(calendar: Calendar, data: string, now: Clock) returns (reply: Reply)
    requires calendar.Valid() && ValidClock(now)
    modifies calendar
    ensures calendar.Valid()
    ensures ParseCallback(data) == Ignore ==>
              reply == Acknowledged && unchanged(calendar)
    ensures ParseCallback(data) == Unrecognised ==>
              reply == Rerendered(Keyboard(calendar.currentYear, calendar.currentMonth, now.date))
              && unchanged(calendar)
    ensures (ParseCallback(data) == PrevMonth || ParseCallback(data) == NextMonth) ==>
              && MonthIndex(calendar.currentYear, calendar.currentMonth)
                 == old(MonthIndex(calendar.currentYear, calendar.currentMonth))
                    + (if ParseCallback(data) == NextMonth then 1 else -1)
              && calendar.selectedDate == old(calendar.selectedDate)
              && reply == Rerendered(Keyboard(calendar.currentYear, calendar.currentMonth, now.date))
    ensures ParseCallback(data).DateChosen? ==>
              && calendar.currentYear == old(calendar.currentYear)
              && calendar.currentMonth == old(calendar.currentMonth)
    ensures ParseCallback(data) == DateChosen(None) ==>
              && calendar.selectedDate == Some(InvalidDate)
              && reply == ReminderLink(InvalidDate, (InvalidDateText + "Z", InvalidDateText + "Z"))
    ensures ParseCallback(data).DateChosen? && ParseCallback(data).day.Some? ==>
              && calendar.selectedDate.Some? && calendar.selectedDate.value.Day?
              && DayNumber(calendar.selectedDate.value.date)
                 == FirstDayNumber(FullYear(calendar.currentYear), calendar.currentMonth) + ParseCallback(data).day.value - 1
              && (reply == BookingAlreadyStarted <==> DiffInDays(calendar.selectedDate.value.date, now) <= OffsetDays)
              && (reply != BookingAlreadyStarted ==>
                    && reply.ReminderLink? && reply.selected == calendar.selectedDate.value
                    && IsStampOf(reply.dates.0, ReminderSeconds(calendar.selectedDate.value.date, true))
                    && IsStampOf(reply.dates.1, ReminderSeconds(calendar.selectedDate.value.date, false)))
  {
    var event := ParseCallback(data);
    reply := HandleEvent(calendar, event, now);
  }

  /**
   * A session on a calendar created today (the bot creates its one calendar
   * when it starts): the keyboard shown for `/remind`, then a press on the
   * next-month control, which shows the following month.
   */
  method RemindThenNext(today: Clock) returns (first: Grid, second: Reply)
    requires ValidClock(today)
    ensures first == Keyboard(today.date.year, today.date.month, today.date)
    ensures today.date.month < 11 ==>
              second == Rerendered(Keyboard(today.date.year, today.date.month + 1, today.date))
    ensures today.date.month == 11 ==>
              second == Rerendered(Keyboard(today.date.year + 1, 0, today.date))
  {
    var calendar := new Calendar(today.date);
    first := calendar.GenerateInlineKeyboard(today.date);
    FixedCallbacks();
    second := HandleCallback(calendar, "next_month", today);
    if today.date.month == 11 {
      MonthIndexInjective(calendar.currentYear, calendar.currentMonth, today.date.year + 1, 0);
    } else {
      MonthIndexInjective(calendar.currentYear, calendar.currentMonth, today.date.year, today.date.month + 1);
    }
  }
}
