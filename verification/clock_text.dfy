/** The wall-clock strings computed once at server start
    (backend/server.js:23-35): the `year-month-day` date, the 12-hour
    `H:MM AM|PM` time and the weekday name. The clock itself is an input. */
module ClockText {
  import opened Wrappers
  import opened Decimal
  import opened Strings

  /** One reading of the local clock, as the Date accessors report it:
      getFullYear, getMonth (0-based), getDate, getHours, getMinutes, getDay. */
  datatype WallClock = WallClock(year: int, monthIndex: int, day: int,
                                 hours: int, minutes: int, weekday: int)
  {
    /** The ranges the Date accessors return values in. */
    predicate Valid() {
      && -271821 <= year <= 275760
      && 0 <= monthIndex < 12
      && 1 <= day <= 31
      && 0 <= hours < 24
      && 0 <= minutes < 60
      && 0 <= weekday < 7
    }
  }

  /** A calendar date with a 1-based month. */
  datatype CalendarDate = CalendarDate(year: int, month: int, day: int)

  /** A time of day on the 24-hour clock. */
  datatype TimeOfDay = TimeOfDay(hours: int, minutes: int)

  // ---------------------------------------------------------------- date

  /** `${year}-${month}-${day}` with month = getMonth() + 1, nothing padded. */
  function FormatDate(year: int, monthIndex: int, day: int): (s: string)
    requires 0 <= monthIndex < 12 && 1 <= day <= 31
    ensures ParseDate(s) == Some(CalendarDate(year, monthIndex + 1, day))
  {
    var y := IntText(year);
    var m := NatText(monthIndex + 1);
    var d := NatText(day);
    DateFromFields(y, m, d, year, monthIndex + 1, day);
    y + "-" + m + "-" + d
  }

  /** Reads `Y-M-D` back: canonical numerals, an optional '-' sign on the year,
      month in 1..12 and day in 1..31. A zero-padded field such as "01" is
      refused, so only unpadded text reads back. */
  function ParseDate(s: string): Option<CalendarDate> {
    if |s| > 0 && s[0] == '-' then
      match ParseUnsignedDate(s[1..])
      case Some(d) =>
        if d.year == 0 then None else Some(CalendarDate(-d.year, d.month, d.day))
      case None => None
    else ParseUnsignedDate(s)
  }

  function ParseUnsignedDate(s: string): Option<CalendarDate> {
    var f := Split(s, '-');
    if |f| == 3 && Canonical(f[0]) && Canonical(f[1]) && Canonical(f[2])
       && 1 <= Value(f[1]) <= 12 && 1 <= Value(f[2]) <= 31
    then Some(CalendarDate(Value(f[0]), Value(f[1]), Value(f[2])))
    else None
  }

  lemma SplitThree(y: string, m: string, d: string)
    requires AllDigits(y) && AllDigits(m) && AllDigits(d)
    ensures Split(y + "-" + m + "-" + d, '-') == [y, m, d]
  {
    DigitsHaveNo(y, '-');
    DigitsHaveNo(m, '-');
    DigitsHaveNo(d, '-');
    SplitWithout(d, '-');
    SplitAfter(m, '-', d);
    assert Split(m + ['-'] + d, '-') == [m, d];
    SplitAfter(y, '-', m + ['-'] + d);
    assert y + "-" + m + "-" + d == y + ['-'] + (m + ['-'] + d);
  }

  lemma UnsignedFromFields(y: string, m: string, d: string)
    requires Canonical(y) && Canonical(m) && Canonical(d)
    requires 1 <= Value(m) <= 12 && 1 <= Value(d) <= 31
    ensures ParseUnsignedDate(y + "-" + m + "-" + d)
            == Some(CalendarDate(Value(y), Value(m), Value(d)))
  {
    SplitThree(y, m, d);
  }

  lemma DateFromFields(y: string, m: string, d: string, year: int, month: int, day: int)
    requires 1 <= month <= 12 && 1 <= day <= 31
    requires m == NatText(month) && d == NatText(day) && y == IntText(year)
    ensures ParseDate(y + "-" + m + "-" + d) == Some(CalendarDate(year, month, day))
  {
    var s := y + "-" + m + "-" + d;
    if year < 0 {
      assert s[1..] == y[1..] + "-" + m + "-" + d;
      UnsignedFromFields(y[1..], m, d);
    } else {
      UnsignedFromFields(y, m, d);
    }
  }

  /** Every date text ParseDate accepts is exactly the text FormatDate writes
      for the date it reads, so the two are inverse on the whole format. */
  lemma {:induction false} ParseDateFormats(s: string)
    ensures ParseDate(s).Some? ==>
      var c := ParseDate(s).value;
      1 <= c.month <= 12 && 1 <= c.day <= 31 && FormatDate(c.year, c.month - 1, c.day) == s
  {
    if ParseDate(s).Some? {
      var c := ParseDate(s).value;
      if |s| > 0 && s[0] == '-' {
        var u := ParseUnsignedDate(s[1..]).value;
        UnsignedFormats(s[1..]);
        assert c.year == -u.year && c.year < 0;
        assert IntText(c.year) == "-" + NatText(u.year) by {
          assert -c.year == u.year;
        }
        assert s == "-" + s[1..];
      } else {
        UnsignedFormats(s);
      }
    }
  }

  lemma UnsignedFormats(s: string)
    requires ParseUnsignedDate(s).Some?
    ensures var c := ParseUnsignedDate(s).value;
      c.year >= 0 && 1 <= c.month <= 12 && 1 <= c.day <= 31
      && NatText(c.year) + "-" + NatText(c.month) + "-" + NatText(c.day) == s
  {
    var f := Split(s, '-');
    NatTextOfValue(f[0]);
    NatTextOfValue(f[1]);
    NatTextOfValue(f[2]);
    JoinSplit(s, '-');
    assert f[1..][1..] == [f[2]];
    assert Join(f[1..][1..], '-') == f[2];
    assert Join(f[1..], '-') == f[1] + ['-'] + f[2];
    assert Join(f, '-') == f[0] + ['-'] + (f[1] + ['-'] + f[2]);
  }

  // ---------------------------------------------------------------- time

  /** `hours % 12 || 12`: JavaScript's `||` replaces the falsy 0 by 12. */
  function DisplayHour(hours: int): (h: int)
    requires 0 <= hours < 24
    ensures 1 <= h <= 12
    ensures h % 12 == hours % 12
  {
    var m := hours % 12;
    if m == 0 then 12 else m
  }

  /** `hours >= 12 ? 'PM' : 'AM'`. */
  function Meridiem(hours: int): (m: string)
    requires 0 <= hours < 24
    ensures m == "AM" || m == "PM"
    ensures m == "PM" <==> hours >= 12
  {
    if hours >= 12 then "PM" else "AM"
  }

  /** The minutes with a '0' prepended when they are below 10. */
  function MinuteText(minutes: int): (s: string)
    requires 0 <= minutes < 60
    ensures |s| == 2 && AllDigits(s) && Value(s) == minutes
    ensures s[0] == '0' <==> minutes < 10
  {
    var s := (if minutes < 10 then "0" else "") + NatText(minutes);
    assert s[..|s| - 1] == [s[0]];
    s
  }

  /** `${hours % 12 || 12}:${minutes < 10 ? '0' : ''}${minutes} ${ampm}`. */
  function FormatTime(hours: int, minutes: int): (s: string)
    requires 0 <= hours < 24 && 0 <= minutes < 60
    ensures 7 <= |s| <= 8
    ensures s[|s| - 6] == ':' && s[|s| - 3] == ' '
    ensures s[|s| - 2..] == Meridiem(hours)
    ensures ParseTime(s) == Some(TimeOfDay(hours, minutes))
  {
    var h := NatText(DisplayHour(hours));
    var s := h + ":" + MinuteText(minutes) + " " + Meridiem(hours);
    TimeFromFields(h, MinuteText(minutes), Meridiem(hours), hours, minutes);
    s
  }

  lemma TimeFromFields(h: string, mm: string, mer: string, hours: int, minutes: int)
    requires 0 <= hours < 24 && 0 <= minutes < 60
    requires h == NatText(DisplayHour(hours)) && mm == MinuteText(minutes)
    requires mer == Meridiem(hours)
    ensures var s := h + ":" + mm + " " + mer;
      |s| == |h| + 6 && ParseTime(s) == Some(TimeOfDay(hours, minutes))
  {
    var s := h + ":" + mm + " " + mer;
    var k := |h|;
    assert |s| == k + 6;
    assert s[..k] == h;
    assert s[k] == ':';
    assert s[k + 1..k + 3] == mm;
    assert s[k + 3] == ' ';
    assert s[k + 4..] == mer;
    assert To24(DisplayHour(hours), mer == "PM") == hours;
  }

  /** The usual reading of a 12-hour clock: 12 AM is midnight, 12 PM is noon. */
  function To24(hour12: int, pm: bool): int {
    if pm then (if hour12 == 12 then 12 else hour12 + 12)
    else (if hour12 == 12 then 0 else hour12)
  }

  /** Reads `H:MM AM|PM` back into a 24-hour time of day. */
  function ParseTime(s: string): Option<TimeOfDay> {
    if |s| < 7 || |s| > 8 then None
    else
      var k := |s| - 6;
      var hourText := s[..k];
      var minuteText := s[k + 1..k + 3];
      var mer := s[k + 4..];
      if Canonical(hourText) && 1 <= Value(hourText) <= 12 && s[k] == ':'
         && AllDigits(minuteText) && Value(minuteText) < 60 && s[k + 3] == ' '
         && (mer == "AM" || mer == "PM")
      then Some(TimeOfDay(To24(Value(hourText), mer == "PM"), Value(minuteText)))
      else None
  }

  lemma {:induction false} TwoDigitText(s: string)
    requires |s| == 2 && AllDigits(s) && Value(s) < 60
    ensures MinuteText(Value(s)) == s
  {
    var v := Value(s);
    assert s[..1] == [s[0]];
    assert v == 10 * DigitValue(s[0]) + DigitValue(s[1]);
    if s[0] == '0' {
      assert [s[1]] == s[1..];
      NatTextOfValue(s[1..]);
      assert Value(s[1..]) == v;
    } else {
      NatTextOfValue(s);
    }
  }

  /** Every time text ParseTime accepts is exactly the text FormatTime writes
      for the time it reads. */
  lemma {:induction false} ParseTimeFormats(s: string)
    ensures ParseTime(s).Some? ==>
      var t := ParseTime(s).value;
      0 <= t.hours < 24 && 0 <= t.minutes < 60 && FormatTime(t.hours, t.minutes) == s
  {
    if ParseTime(s).Some? {
      var k := |s| - 6;
      var hourText := s[..k];
      var minuteText := s[k + 1..k + 3];
      var mer := s[k + 4..];
      var t := ParseTime(s).value;
      NatTextOfValue(hourText);
      TwoDigitText(minuteText);
      assert DisplayHour(t.hours) == Value(hourText);
      assert Meridiem(t.hours) == mer;
      assert s == hourText + ":" + minuteText + " " + mer;
    }
  }

  /** Distinct readings in range give distinct time texts: the 24-hour time
      can be recovered from the 12-hour text. */
  lemma FormatTimeInjective(h1: int, m1: int, h2: int, m2: int)
    requires 0 <= h1 < 24 && 0 <= m1 < 60 && 0 <= h2 < 24 && 0 <= m2 < 60
    ensures FormatTime(h1, m1) == FormatTime(h2, m2) <==> h1 == h2 && m1 == m2
  {
  }

  /** Midnight and noon both display hour 12; the afternoon subtracts 12. */
  lemma TwelveHourCases(hours: int)
    requires 0 <= hours < 24
    ensures hours == 0 ==> DisplayHour(hours) == 12 && Meridiem(hours) == "AM"
    ensures hours == 12 ==> DisplayHour(hours) == 12 && Meridiem(hours) == "PM"
    ensures 1 <= hours < 12 ==> DisplayHour(hours) == hours && Meridiem(hours) == "AM"
    ensures 13 <= hours ==> DisplayHour(hours) == hours - 12 && Meridiem(hours) == "PM"
  {
  }

  /** The shape named in the source's comment: "2:30 PM". Midnight and noon
      both show hour 12, and single-digit minutes gain a '0'. */
  lemma FormatTimeExamples()
    ensures FormatTime(14, 30) == "2:30 PM"
    ensures FormatTime(0, 5) == "12:05 AM"
    ensures FormatTime(12, 0) == "12:00 PM"
  {
    AfternoonExample();
    MidnightExample();
    NoonExample();
  }

  lemma AfternoonExample()
    ensures FormatTime(14, 30) == "2:30 PM"
  {
    assert NatText(DisplayHour(14)) == "2";
    assert NatText(3) == "3";
    assert MinuteText(30) == "30";
  }

  lemma MidnightExample()
    ensures FormatTime(0, 5) == "12:05 AM"
  {
    assert NatText(1) == "1";
    assert NatText(DisplayHour(0)) == "12";
    assert MinuteText(5) == "05";
  }

  lemma NoonExample()
    ensures FormatTime(12, 0) == "12:00 PM"
  {
    assert NatText(1) == "1";
    assert NatText(DisplayHour(12)) == "12";
    assert MinuteText(0) == "00";
  }

  /** Month index 0 with day 5 in 2024 is written "2024-1-5". */
  lemma FormatDateExample()
    ensures FormatDate(2024, 0, 5) == "2024-1-5"
  {
    assert NatText(2) == "2" && NatText(20) == "20" && NatText(202) == "202";
    assert NatText(2024) == NatText(202) + "4";
    assert NatText(1) == "1" && NatText(5) == "5";
  }

  // ------------------------------------------------------------- weekday

  /** The names indexed by getDay(): 0 is Sunday. */
  const DaysOfWeek: seq<string> :=
    ["Sunday", "Monday", "Tuesday", "Wednesday", "Thursday", "Friday", "Saturday"]

  /** The reference numbering of the weekday names, Sunday first. */
  function WeekdayNumber(name: string): Option<int> {
    if name == "Sunday" then Some(0)
    else if name == "Monday" then Some(1)
    else if name == "Tuesday" then Some(2)
    else if name == "Wednesday" then Some(3)
    else if name == "Thursday" then Some(4)
    else if name == "Friday" then Some(5)
    else if name == "Saturday" then Some(6)
    else None
  }

  /** `daysOfWeek[dayNumber]`: defined on every getDay() value. */
  function DayName(weekday: int): (name: string)
    requires 0 <= weekday < 7
    ensures WeekdayNumber(name) == Some(weekday)
  {
    DaysOfWeek[weekday]
  }

  lemma DayNameInverse(name: string, weekday: int)
    ensures WeekdayNumber(name) == Some(weekday) <==> 0 <= weekday < 7 && DayName(weekday) == name
  {
  }

  // ----------------------------------------------------------- together

  /** The four clock values the prompt text can draw on. */
  datatype StartupClock = StartupClock(date: string, day: int, time: string, dayName: string)

  /** Lines 23-35 as one step: every value is read off one clock reading. */
  function ReadClock(c: WallClock): (r: StartupClock)
    requires c.Valid()
    ensures ParseDate(r.date) == Some(CalendarDate(c.year, c.monthIndex + 1, c.day))
    ensures r.day == c.day
    ensures ParseTime(r.time) == Some(TimeOfDay(c.hours, c.minutes))
    ensures WeekdayNumber(r.dayName) == Some(c.weekday)
  {
    StartupClock(FormatDate(c.year, c.monthIndex, c.day), c.day,
                 FormatTime(c.hours, c.minutes), DayName(c.weekday))
  }

  /** Nothing of the reading is lost: distinct valid readings give distinct
      startup values. */
  lemma ReadClockInjective(c1: WallClock, c2: WallClock)
    requires c1.Valid() && c2.Valid()
    ensures ReadClock(c1) == ReadClock(c2) <==> c1 == c2
  {
  }
}
