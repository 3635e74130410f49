/** The sentence of the assistant's instructions that carries the clock
    (backend/server.js:77). As written it interpolates the day of the month
    where the weekday name computed at line 35 was evidently meant to go. */
module PromptLine {
  import opened Wrappers
  import opened Decimal
  import opened Strings
  import opened ClockText

  const Opening: string := "Remember that today is "
  const Closing: string := " The current time is "

  /** The sentence of line 77 around whatever follows the date. */
  function Sentence(date: string, middle: string, time: string): string {
    Opening + date + ", " + middle + "." + Closing + time + "."
  }

  /** What a reader finds after the date: the text between the first ", "
      and the next '.'. */
  function DaySlot(line: string): Option<string> {
    match IndexOf(line, ',')
    case None => None
    case Some(i) =>
      var rest := line[i + 1..];
      if |rest| == 0 || rest[0] != ' ' then None
      else
        match IndexOf(rest[1..], '.')
        case None => None
        case Some(j) => Some(rest[1..][..j])
  }

  /** The weekday named after the date, if any. */
  function ReadWeekday(line: string): Option<int> {
    match DaySlot(line)
    case None => None
    case Some(slot) => WeekdayNumber(slot)
  }

  /** `Remember that today is ${date}, ${day}. The current time is ${time}.`
      For every reading the place after the date holds the day of the month,
      and the sentence names no weekday after the date. */
  function TodayLine(c: WallClock): (line: string)
    requires c.Valid()
    ensures DaySlot(line) == Some(IntText(c.day))
    ensures ReadWeekday(line) == None
  {
    var k := ReadClock(c);
    DateHasNoComma(c);
    DigitsHaveNo(IntText(k.day), '.');
    SentenceSlot(k.date, IntText(k.day), k.time);
    NoDigitsInNames(IntText(k.day));
    Sentence(k.date, IntText(k.day), k.time)
  }

  /** The sentence with `${dayName}` in the place of `${day}`: the reading's
      weekday named after the date is the reading's weekday. */
  function TodayLineWithWeekday(c: WallClock): (line: string)
    requires c.Valid()
    ensures DaySlot(line) == Some(DayName(c.weekday))
    ensures ReadWeekday(line) == Some(c.weekday)
  {
    var k := ReadClock(c);
    DateHasNoComma(c);
    NoDotInNames(c.weekday);
    SentenceSlot(k.date, k.dayName, k.time);
    Sentence(k.date, k.dayName, k.time)
  }

  lemma SlotBetween(head: string, slot: string, tail: string)
    requires ',' !in head && '.' !in slot
    ensures DaySlot(head + ", " + slot + "." + tail) == Some(slot)
  {
    var line := head + ", " + slot + "." + tail;
    var after := " " + slot + "." + tail;
    assert line == head + [','] + after;
    IndexAfter(head, ',', after);
    assert line[|head| + 1..] == after;
    assert after[1..] == slot + ['.'] + tail;
    IndexAfter(slot, '.', tail);
    assert (slot + ['.'] + tail)[..|slot|] == slot;
  }

  lemma SentenceSlot(date: string, middle: string, time: string)
    requires ',' !in Opening + date && '.' !in middle
    ensures DaySlot(Sentence(date, middle, time)) == Some(middle)
  {
    var tail := Closing + time + ".";
    assert Sentence(date, middle, time) == (Opening + date) + ", " + middle + "." + tail;
    SlotBetween(Opening + date, middle, tail);
  }

  lemma DateHasNoComma(c: WallClock)
    requires c.Valid()
    ensures ',' !in Opening + ReadClock(c).date
  {
    var date := ReadClock(c).date;
    assert date == FormatDate(c.year, c.monthIndex, c.day);
    FormatDateHasNoComma(c.year, c.monthIndex, c.day);
    assert ',' !in Opening;
  }

  lemma FormatDateHasNoComma(year: int, monthIndex: int, day: int)
    requires 0 <= monthIndex < 12 && 1 <= day <= 31
    ensures ',' !in FormatDate(year, monthIndex, day)
  {
    var y := IntText(year);
    var m := NatText(monthIndex + 1);
    var d := NatText(day);
    DigitsHaveNo(m, ',');
    DigitsHaveNo(d, ',');
    if year < 0 {
      DigitsHaveNo(y[1..], ',');
      assert y == [y[0]] + y[1..];
    } else {
      DigitsHaveNo(y, ',');
    }
    assert ',' !in y;
    assert FormatDate(year, monthIndex, day) == y + "-" + m + "-" + d;
  }

  lemma NoDotInNames(weekday: int)
    requires 0 <= weekday < 7
    ensures '.' !in DayName(weekday)
  {
  }

  lemma NoDigitsInNames(s: string)
    requires AllDigits(s)
    ensures WeekdayNumber(s) == None
  {
    if WeekdayNumber(s).Some? {
      assert IsDigit(s[0]);
    }
  }

  /** The reading of Thursday 10 October 2024 at 09:00 (getDay() is 4): the
      server writes "Remember that today is 2024-10-10, 10. The current time
      is 9:00 AM.", which names no weekday after the date. */
  lemma TodayLineExample()
    ensures TodayLine(ExampleReading()) == Sentence("2024-10-10", "10", "9:00 AM")
    ensures ReadWeekday(TodayLine(ExampleReading())) == None
  {
    ExampleStartup();
    assert IntText(10) == "10" by {
      assert NatText(1) == "1";
    }
  }

  /** The same reading with the weekday interpolated: "Remember that today is
      2024-10-10, Thursday. The current time is 9:00 AM.", read back as 4. */
  lemma TodayLineWithWeekdayExample()
    ensures TodayLineWithWeekday(ExampleReading()) == Sentence("2024-10-10", "Thursday", "9:00 AM")
    ensures ReadWeekday(TodayLineWithWeekday(ExampleReading())) == Some(4)
  {
    ExampleStartup();
  }

  function ExampleReading(): (c: WallClock)
    ensures c.Valid()
  {
    WallClock(2024, 9, 10, 9, 0, 4)
  }

  lemma ExampleStartup()
    ensures ReadClock(ExampleReading()) == StartupClock("2024-10-10", 10, "9:00 AM", "Thursday")
  {
    ExampleDate();
    ExampleTime();
  }

  lemma ExampleDate()
    ensures FormatDate(2024, 9, 10) == "2024-10-10"
  {
    assert NatText(2) == "2" && NatText(20) == "20" && NatText(202) == "202";
    assert NatText(2024) == NatText(202) + "4";
    assert NatText(1) == "1" && NatText(10) == "10";
  }

  lemma ExampleTime()
    ensures FormatTime(9, 0) == "9:00 AM"
  {
    assert NatText(DisplayHour(9)) == "9";
    assert NatText(0) == "0" && MinuteText(0) == "00";
  }
}
