/**
 * `get_current_date`: `f"Today is {now.strftime('%A, %B %d, %Y')}."`, with the
 * clock reading passed in as a CalendarDate instead of `datetime.now()`.
 * `%A` and `%B` are the full English weekday and month names (the C locale),
 * `%d` is the day of the month as two digits and `%Y` the four-digit year.
 *
 * ParseDateMessage reads such a sentence back; the round-trip lemma shows
 * that the sentence determines the date it was made from.
 */
module DateFormat {
  import opened Options
  import opened Chars

  datatype Weekday = Monday | Tuesday | Wednesday | Thursday | Friday | Saturday | Sunday

  datatype Month =
    | January | February | March | April | May | June
    | July | August | September | October | November | December

  type DayOfMonth = d: int | 1 <= d <= 31 witness 1

  /** The years whose `%Y` has four digits. */
  type Year = y: int | 1000 <= y <= 9999 witness 1000

  datatype CalendarDate = CalendarDate(weekday: Weekday, month: Month, day: DayOfMonth, year: Year)

  /** A name as `%A` and `%B` print it: a capital letter followed by at least
      two lower-case letters. */
  predicate IsCapitalizedName(s: string) {
    |s| >= 3 && IsUpper(s[0]) && forall j :: 1 <= j < |s| ==> IsLower(s[j])
  }

  /** `%A`: the full English name of the weekday. */
  function WeekdayName(w: Weekday): (s: string)
    ensures IsCapitalizedName(s)
  {
    match w
    case Monday => "Monday"
    case Tuesday => "Tuesday"
    case Wednesday => "Wednesday"
    case Thursday => "Thursday"
    case Friday => "Friday"
    case Saturday => "Saturday"
    case Sunday => "Sunday"
  }

  /** `%B`: the full English name of the month. */
  function MonthName(m: Month): (s: string)
    ensures IsCapitalizedName(s)
  {
    match m
    case January => "January"
    case February => "February"
    case March => "March"
    case April => "April"
    case May => "May"
    case June => "June"
    case July => "July"
    case August => "August"
    case September => "September"
    case October => "October"
    case November => "November"
    case December => "December"
  }

  function WeekdayFromName(s: string): (w: Option<Weekday>)
    ensures w.Some? ==> WeekdayName(w.value) == s
  {
    if s == "Monday" then Some(Monday)
    else if s == "Tuesday" then Some(Tuesday)
    else if s == "Wednesday" then Some(Wednesday)
    else if s == "Thursday" then Some(Thursday)
    else if s == "Friday" then Some(Friday)
    else if s == "Saturday" then Some(Saturday)
    else if s == "Sunday" then Some(Sunday)
    else None
  }

  function MonthFromName(s: string): (m: Option<Month>)
    ensures m.Some? ==> MonthName(m.value) == s
  {
    if s == "January" then Some(January)
    else if s == "February" then Some(February)
    else if s == "March" then Some(March)
    else if s == "April" then Some(April)
    else if s == "May" then Some(May)
    else if s == "June" then Some(June)
    else if s == "July" then Some(July)
    else if s == "August" then Some(August)
    else if s == "September" then Some(September)
    else if s == "October" then Some(October)
    else if s == "November" then Some(November)
    else if s == "December" then Some(December)
    else None
  }

  lemma WeekdayNameRoundTrip(w: Weekday)
    ensures WeekdayFromName(WeekdayName(w)) == Some(w)
    ensures ',' !in WeekdayName(w)
  {
  }

  lemma MonthNameRoundTrip(m: Month)
    ensures MonthFromName(MonthName(m)) == Some(m)
    ensures ' ' !in MonthName(m)
  {
  }

  function DigitChar(d: nat): (c: char)
    requires d <= 9
    ensures IsDigit(c) && c as int - '0' as int == d
  {
    ('0' as int + d) as char
  }

  /** A number below 100 as two decimal digits, with a leading zero if needed. */
  function Pad2(n: nat): (s: string)
    requires n < 100
    ensures |s| == 2 && IsDigit(s[0]) && IsDigit(s[1])
  {
    [DigitChar(n / 10), DigitChar(n % 10)]
  }

  /** The value of two decimal digits. */
  function Pad2Value(s: string): (n: nat)
    requires |s| == 2 && IsDigit(s[0]) && IsDigit(s[1])
    ensures n < 100
  {
    (s[0] as int - '0' as int) * 10 + (s[1] as int - '0' as int)
  }

  lemma Pad2RoundTrip(n: nat)
    requires n < 100
    ensures Pad2Value(Pad2(n)) == n
  {
  }

  /** `%d`: the day of the month, zero-padded to two digits. */
  function DayDigits(d: DayOfMonth): (s: string)
    ensures |s| == 2
  {
    Pad2(d)
  }

  /** `%Y`: the year as four digits. */
  function YearDigits(y: Year): (s: string)
    ensures |s| == 4
  {
    Pad2(y / 100) + Pad2(y % 100)
  }

  const MessagePrefix: string := "Today is "

  /** `strftime('%A, %B %d, %Y')`. The text determines the date: ParseDateBody
      reads it back. */
  function DateText(d: CalendarDate): (s: string)
    ensures ParseDateBody(s) == Some(d)
  {
    var w := WeekdayName(d.weekday);
    var m := MonthName(d.month);
    var tail := DayDigits(d.day) + ", " + YearDigits(d.year);
    var rest := " " + m + " " + tail;
    WeekdayNameRoundTrip(d.weekday);
    MonthNameRoundTrip(d.month);
    CutAtFirst(w, ',', rest);
    assert rest[1..] == m + [' '] + tail;
    CutAtFirst(m, ' ', tail);
    DayYearRoundTrip(d.day, d.year);
    w + [','] + rest
  }

  /** `get_current_date` for the clock reading `d`. */
  function DateMessage(d: CalendarDate): (s: string)
    ensures |s| > |MessagePrefix| && s[..|MessagePrefix|] == MessagePrefix && s[|s| - 1] == '.'
  {
    MessagePrefix + DateText(d) + "."
  }

  /** The part of `s` before the first `c`, and the part after it. */
  function CutAt(s: string, c: char): (r: Option<(string, string)>)
    ensures r.Some? ==> s == r.value.0 + [c] + r.value.1 && c !in r.value.0
  {
    if s == [] then None
    else if s[0] == c then Some(([], s[1..]))
    else match CutAt(s[1..], c)
      case None => None
      case Some((before, after)) => Some(([s[0]] + before, after))
  }

  lemma {:induction false} CutAtFirst(x: string, c: char, y: string)
    requires c !in x
    ensures CutAt(x + [c] + y, c) == Some((x, y))
  {
    if x == [] {
      assert x + [c] + y == [c] + y;
    } else {
      assert (x + [c] + y)[0] == x[0];
      assert (x + [c] + y)[1..] == x[1..] + [c] + y;
      CutAtFirst(x[1..], c, y);
      assert [x[0]] + x[1..] == x;
    }
  }

  /** Reads `DD, YYYY` back into a day of the month and a year. */
  function ParseDayYear(tail: string): Option<(DayOfMonth, Year)> {
    if |tail| != 8 || tail[2..4] != ", " then None
    else if !(IsDigit(tail[0]) && IsDigit(tail[1]) && IsDigit(tail[4]) && IsDigit(tail[5])
              && IsDigit(tail[6]) && IsDigit(tail[7])) then None
    else
      var day := Pad2Value(tail[..2]);
      var year := Pad2Value(tail[4..6]) * 100 + Pad2Value(tail[6..]);
      if 1 <= day <= 31 && 1000 <= year <= 9999 then Some((day, year)) else None
  }

  /** Reads `Weekday, Month DD, YYYY` back into a date. */
  function ParseDateBody(body: string): Option<CalendarDate> {
    match CutAt(body, ',')
    case None => None
    case Some((wname, rest)) =>
      if rest == [] || rest[0] != ' ' then None
      else match CutAt(rest[1..], ' ')
        case None => None
        case Some((mname, tail)) =>
          match (WeekdayFromName(wname), MonthFromName(mname), ParseDayYear(tail))
          case (Some(w), Some(m), Some((day, year))) => Some(CalendarDate(w, m, day, year))
          case _ => None
  }

  /** Reads a sentence of the shape DateMessage writes back into a date. */
  function ParseDateMessage(s: string): Option<CalendarDate> {
    if |s| <= |MessagePrefix| || s[..|MessagePrefix|] != MessagePrefix || s[|s| - 1] != '.' then None
    else ParseDateBody(s[|MessagePrefix|..|s| - 1])
  }

  lemma DayYearRoundTrip(day: DayOfMonth, year: Year)
    ensures ParseDayYear(DayDigits(day) + ", " + YearDigits(year)) == Some((day, year))
  {
    var tail := DayDigits(day) + ", " + YearDigits(year);
    assert tail[..2] == Pad2(day);
    assert tail[2..4] == ", ";
    assert tail[4..6] == Pad2(year / 100) && tail[6..] == Pad2(year % 100);
    Pad2RoundTrip(day);
    Pad2RoundTrip(year / 100);
    Pad2RoundTrip(year % 100);
  }

  /** The sentence `get_current_date` produces determines the date it was made from. */
  lemma ParseDateMessageRoundTrip(d: CalendarDate)
    ensures ParseDateMessage(DateMessage(d)) == Some(d)
  {
    var s := DateMessage(d);
    assert s[|MessagePrefix|..|s| - 1] == DateText(d);
  }

  /** Two clock readings give the same sentence only if they are the same date. */
  lemma DateMessageInjective(d1: CalendarDate, d2: CalendarDate)
    requires DateMessage(d1) == DateMessage(d2)
    ensures d1 == d2
  {
    ParseDateMessageRoundTrip(d1);
    ParseDateMessageRoundTrip(d2);
  }
}
