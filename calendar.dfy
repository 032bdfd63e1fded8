/**
 * The calendar side of the booking conversation: month lengths, the 7-day
 * chunks offered as weeks (bot.py:86-100), the callback strings that carry a
 * month, a week or a date from one step to the next (bot.py:83-87, 98,
 * 118-131), and the "%d-%m-%Y" and "%d %b %Y" date formats (bot.py:37, 306).
 */
module Calendar {
  import opened Wrappers
  import opened Text

  // ---------------------------------------------------------------- months

  /** The Gregorian leap-year rule of `calendar.isleap`. */
  predicate IsLeapYear(year: int)
  {
    year % 4 == 0 && (year % 100 != 0 || year % 400 == 0)
  }

  /** `calendar.monthrange(year, month)[1]`: the number of days in the month. */
  function DaysInMonth(year: int, month: int): (n: int)
    requires 1 <= month <= 12
    ensures 28 <= n <= 31
  {
    if month == 2 then (if IsLeapYear(year) then 29 else 28)
    else if month == 4 || month == 6 || month == 9 || month == 11 then 30
    else 31
  }

  /** The days in the months before `month` of `year`. */
  function DaysBeforeMonth(year: int, month: int): (n: int)
    requires 1 <= month <= 13
    ensures 0 <= n <= 31 * (month - 1)
    decreases month
  {
    if month == 1 then 0 else DaysBeforeMonth(year, month - 1) + DaysInMonth(year, month - 1)
  }

  /** The twelve month lengths add up to 366 in a leap year and to 365 otherwise. */
  lemma YearLength(year: int)
    ensures DaysBeforeMonth(year, 13) == if IsLeapYear(year) then 366 else 365
  {
    var feb := DaysInMonth(year, 2);
    assert DaysBeforeMonth(year, 2) == 31;
    assert DaysBeforeMonth(year, 3) == 31 + feb;
    assert DaysBeforeMonth(year, 4) == 62 + feb;
    assert DaysBeforeMonth(year, 5) == 92 + feb;
    assert DaysBeforeMonth(year, 6) == 123 + feb;
    assert DaysBeforeMonth(year, 7) == 153 + feb;
    assert DaysBeforeMonth(year, 8) == 184 + feb;
    assert DaysBeforeMonth(year, 9) == 215 + feb;
    assert DaysBeforeMonth(year, 10) == 245 + feb;
    assert DaysBeforeMonth(year, 11) == 276 + feb;
    assert DaysBeforeMonth(year, 12) == 306 + feb;
  }

  // ---------------------------------------------------------------- weeks

  /** A chunk of days of a month, from `startDay` to `endDay` inclusive. */
  datatype Week = Week(startDay: int, endDay: int)

  /** The number of chunks the week loop produces for a month of `numDays` days. */
  function WeekCount(numDays: int): (c: nat)
    ensures numDays <= 0 ==> c == 0
    ensures numDays > 0 ==> 7 * (c - 1) < numDays <= 7 * c
  {
    if numDays <= 0 then 0 else (numDays + 6) / 7
  }

  /** The chunks of bot.py:91-100: start days 1, 8, 15, ..., each ending at min(start + 6, numDays). */
  function Weeks(numDays: int): (ws: seq<Week>)
    ensures |ws| == WeekCount(numDays)
  {
    seq(WeekCount(numDays), i => Week(7 * i + 1, Min(7 * i + 7, numDays)))
  }

  /**
   * The chunks partition the month: the first starts on day 1, each starts
   * the day after the previous one ends, the last ends on the last day, each
   * holds one to seven days, and every day of the month lies in exactly one.
   */
  lemma WeeksPartition(numDays: int)
    requires numDays >= 1
    ensures var ws := Weeks(numDays);
            |ws| >= 1 && ws[0].startDay == 1 && ws[|ws| - 1].endDay == numDays &&
            (forall i :: 0 <= i < |ws| - 1 ==> ws[i + 1].startDay == ws[i].endDay + 1) &&
            (forall i :: 0 <= i < |ws| ==> ws[i].startDay <= ws[i].endDay < ws[i].startDay + 7)
    ensures forall d :: Covered(d, Weeks(numDays)) <==> 1 <= d <= numDays
    ensures forall i, d :: 0 <= i < |Weeks(numDays)| ==>
              (InWeek(d, Weeks(numDays)[i]) <==> 1 <= d <= numDays && (d - 1) / 7 == i)
  {
    var ws := Weeks(numDays);
    forall d | 1 <= d <= numDays ensures Covered(d, ws) {
      assert InWeek(d, ws[(d - 1) / 7]);
    }
  }

  /** Some chunk holds day `d`. */
  predicate Covered(d: int, ws: seq<Week>)
  {
    exists i :: 0 <= i < |ws| && InWeek(d, ws[i])
  }

  /** Day `d` lies in the chunk `w`. */
  predicate InWeek(d: int, w: Week)
  {
    w.startDay <= d <= w.endDay
  }

  /** The week loop of handle_month_selection (bot.py:90-100). */
  method MonthWeeks(numDays: int) returns (weeks: seq<Week>)
    ensures weeks == Weeks(numDays)
  {
    weeks := [];
    var currentDay := 1;
    while currentDay <= numDays
      invariant currentDay == 7 * |weeks| + 1
      invariant |weeks| <= WeekCount(numDays)
      invariant forall i :: 0 <= i < |weeks| ==> weeks[i] == Week(7 * i + 1, Min(7 * i + 7, numDays))
      decreases numDays - currentDay
    {
      var startDay := currentDay;
      var endDay := Min(currentDay + 6, numDays);
      weeks := weeks + [Week(startDay, endDay)];
      currentDay := currentDay + 7;
    }
  }

  // ---------------------------------------------------------------- dates

  /** A day, a month and a year, as `datetime` holds them. */
  datatype Date = Date(day: int, month: int, year: int)

  /** A date `datetime` accepts. */
  predicate ValidDate(d: Date)
  {
    1 <= d.year <= 9999 && 1 <= d.month <= 12 && 1 <= d.day <= DaysInMonth(d.year, d.month)
  }

  /** f"{day:02d}-{month:02d}-{year}", the date strings of bot.py:98 and bot.py:130. */
  function DateText(day: nat, month: nat, year: nat): string
  {
    Pad2(day) + "-" + Pad2(month) + "-" + Decimal(year)
  }

  /** The three '-'-separated fields of a "DD-MM-YYYY" text are the numerals of its day, month and year. */
  lemma DateTextFields(day: nat, month: nat, year: nat)
    ensures Split(DateText(day, month, year), '-') == [Pad2(day), Pad2(month), Decimal(year)]
  {
    var d, m, y := Pad2(day), Pad2(month), Decimal(year);
    assert DateText(day, month, year) == d + ['-'] + (m + ['-'] + y);
    DigitsHaveNoSeparator(d, '-');
    DigitsHaveNoSeparator(m, '-');
    DigitsHaveNoSeparator(y, '-');
    SplitThree(d, m, y, '-');
  }

  /**
   * `map(int, s.split('-'))` unpacked into three names: exactly three fields,
   * each a numeral; anything else makes Python raise ValueError.
   */
  function ParseDayMonthYear(s: string): (r: Option<(nat, nat, nat)>)
    ensures r.Some? <==> |Split(s, '-')| == 3 && forall i :: 0 <= i < 3 ==> IsNumeral(Split(s, '-')[i])
    ensures r.Some? ==> r.value.0 == DigitsValue(Split(s, '-')[0]) &&
                        r.value.1 == DigitsValue(Split(s, '-')[1]) &&
                        r.value.2 == DigitsValue(Split(s, '-')[2])
  {
    var parts := Split(s, '-');
    if |parts| != 3 then None
    else match (ParseNat(parts[0]), ParseNat(parts[1]), ParseNat(parts[2]))
      case (Some(d), Some(m), Some(y)) => Some((d, m, y))
      case _ => None
  }

  /** A numeral without a leading zero is the decimal form of its value. */
  lemma {:induction false} CanonicalDecimal(s: string)
    requires 1 <= |s| && AllDigits(s) && s[0] != '0'
    ensures DigitsValue(s) >= 1 && Decimal(DigitsValue(s)) == s
    decreases |s|
  {
    if |s| == 1 {
      assert DigitChar(DigitValue(s[0])) == s[0];
    } else {
      var init, c := s[..|s| - 1], s[|s| - 1];
      assert s == init + [c];
      assert AllDigits(init) && init[0] == s[0];
      var n, d := DigitsValue(init), DigitValue(c);
      assert DigitsValue(s) == n * 10 + d;
      assert DigitChar(d) == c;
      CanonicalDecimal(init);
      DecimalStep(n, d);
    }
  }

  /** Appending one digit to a positive number's decimal form. */
  lemma DecimalStep(n: nat, d: nat)
    requires 1 <= n && d < 10
    ensures Decimal(n * 10 + d) == Decimal(n) + [DigitChar(d)]
  {
    assert (n * 10 + d) / 10 == n && (n * 10 + d) % 10 == d;
  }

  /** Reading a date text back gives its day, month and year. */
  lemma DateTextRoundTrip(day: nat, month: nat, year: nat)
    ensures ParseDayMonthYear(DateText(day, month, year)) == Some((day, month, year))
  {
    DateTextFields(day, month, year);
  }

  /** A date string handle_week_selection offers for each day of the chosen week (bot.py:128-131). */
  method WeekDates(startDay: nat, endDay: nat, month: nat, year: nat) returns (dates: seq<string>)
    ensures |dates| == if endDay < startDay then 0 else endDay - startDay + 1
    ensures forall i :: 0 <= i < |dates| ==> dates[i] == DateText(startDay + i, month, year)
  {
    dates := [];
    var day := startDay;
    while day <= endDay
      invariant startDay <= day && (endDay < startDay ==> day == startDay) && (startDay <= endDay ==> day <= endDay + 1)
      invariant |dates| == day - startDay
      invariant forall i :: 0 <= i < |dates| ==> dates[i] == DateText(startDay + i, month, year)
      decreases endDay + 1 - day
    {
      ghost var done := dates;
      dates := dates + [DateText(day, month, year)];
      forall i | 0 <= i < |dates|
        ensures dates[i] == DateText(startDay + i, month, year)
      {
        if i < |done| {
          assert dates[i] == done[i];
        } else {
          assert startDay + i == day;
        }
      }
      day := day + 1;
    }
  }

  // ---------------------------------------------------------------- callbacks

  /** The callback data of a month button: "month:" + `strftime('%Y-%m')` (bot.py:66). */
  function MonthField(year: nat, month: nat): string
  {
    Decimal(year) + "-" + Pad2(month)
  }

  /**
   * `year, month = map(int, selected_month.split('-'))` (bot.py:86): exactly
   * two numeral fields, or Python raises ValueError.
   */
  function ParseYearMonth(s: string): (r: Option<(nat, nat)>)
    ensures r.Some? <==> |Split(s, '-')| == 2 && IsNumeral(Split(s, '-')[0]) && IsNumeral(Split(s, '-')[1])
    ensures r.Some? ==> r.value == (DigitsValue(Split(s, '-')[0]), DigitsValue(Split(s, '-')[1]))
  {
    var parts := Split(s, '-');
    if |parts| != 2 then None
    else match (ParseNat(parts[0]), ParseNat(parts[1]))
      case (Some(y), Some(m)) => Some((y, m))
      case _ => None
  }

  /** A month field reads back as its year and month. */
  lemma MonthFieldRoundTrip(year: nat, month: nat)
    ensures ParseYearMonth(MonthField(year, month)) == Some((year, month))
  {
    var parts := [Decimal(year), Pad2(month)];
    assert Join(parts, '-') == MonthField(year, month) by {
      assert parts[1..] == [Pad2(month)];
    }
    DigitsHaveNoSeparator(Decimal(year), '-');
    DigitsHaveNoSeparator(Pad2(month), '-');
    SplitJoin(parts, '-');
  }

  /** The callback data of a week button: f"week:{start}:{end}" with both ends as DD-MM-YYYY (bot.py:98). */
  function WeekCallback(w: Week, month: nat, year: nat): string
    requires 0 <= w.startDay && 0 <= w.endDay
  {
    "week:" + DateText(w.startDay, month, year) + ":" + DateText(w.endDay, month, year)
  }

  /**
   * `selected_week_list[0] + ":" + selected_week_list[1]` with
   * `selected_week_list = data.split(':')[1:]` (bot.py:118-119): the second
   * and third ':'-fields; fewer than three fields make Python raise IndexError.
   */
  function SelectedWeek(data: string): (r: Option<string>)
    ensures r.Some? <==> |Split(data, ':')| >= 3
    ensures r.Some? ==> Split(r.value, ':') == Split(data, ':')[1..3]
  {
    var parts := Split(data, ':');
    if |parts| < 3 then None
    else
      assert Join(parts[1..3], ':') == parts[1] + ":" + parts[2] by {
        assert parts[1..3][1..] == [parts[2]];
      }
      SplitJoin(parts[1..3], ':');
      Some(parts[1] + ":" + parts[2])
  }

  /** What handle_week_selection reads from a week: the start's day, month and year and the end's day. */
  datatype WeekChoice = WeekChoice(startDay: nat, month: nat, year: nat, endDay: nat)

  /**
   * bot.py:123-125: split at ':' into two halves, each split at '-' into
   * three numerals; the end's month and year are read but not used.
   */
  function ParseWeek(selectedWeek: string): (r: Option<WeekChoice>)
    ensures r.Some? ==>
              |Split(selectedWeek, ':')| == 2 &&
              ParseDayMonthYear(Split(selectedWeek, ':')[0]).Some? &&
              ParseDayMonthYear(Split(selectedWeek, ':')[1]).Some?
    ensures r.Some? ==>
              var start := ParseDayMonthYear(Split(selectedWeek, ':')[0]).value;
              r.value == WeekChoice(start.0, start.1, start.2, ParseDayMonthYear(Split(selectedWeek, ':')[1]).value.0)
  {
    var halves := Split(selectedWeek, ':');
    if |halves| != 2 then None
    else match (ParseDayMonthYear(halves[0]), ParseDayMonthYear(halves[1]))
      case (Some(start), Some(end)) => Some(WeekChoice(start.0, start.1, start.2, end.0))
      case _ => None
  }

  /**
   * A week button's data, handed back to handle_week_selection, yields that
   * week's start day, month, year and end day.
   */
  lemma WeekCallbackRoundTrip(w: Week, month: nat, year: nat)
    requires 0 <= w.startDay && 0 <= w.endDay
    ensures SelectedWeek(WeekCallback(w, month, year)).Some?
    ensures ParseWeek(SelectedWeek(WeekCallback(w, month, year)).value) ==
              Some(WeekChoice(w.startDay, month, year, w.endDay))
  {
    var a, b := DateText(w.startDay, month, year), DateText(w.endDay, month, year);
    var data := WeekCallback(w, month, year);
    WeekCallbackFields(w, month, year);
    assert Split(data, ':')[1..3] == [a, b];
    var selected := SelectedWeek(data).value;
    DateTextRoundTrip(w.startDay, month, year);
    DateTextRoundTrip(w.endDay, month, year);
    ParseWeekHalves(selected, a, b);
  }

  /** A selected week whose halves are two date texts is read as their fields. */
  lemma ParseWeekHalves(selected: string, a: string, b: string)
    requires Split(selected, ':') == [a, b]
    requires ParseDayMonthYear(a).Some? && ParseDayMonthYear(b).Some?
    ensures ParseWeek(selected) ==
              Some(WeekChoice(ParseDayMonthYear(a).value.0, ParseDayMonthYear(a).value.1,
                              ParseDayMonthYear(a).value.2, ParseDayMonthYear(b).value.0))
  {
  }

  /** The ':'-fields of a week button's data. */
  lemma WeekCallbackFields(w: Week, month: nat, year: nat)
    requires 0 <= w.startDay && 0 <= w.endDay
    ensures Split(WeekCallback(w, month, year), ':') ==
              ["week", DateText(w.startDay, month, year), DateText(w.endDay, month, year)]
  {
    var a, b := DateText(w.startDay, month, year), DateText(w.endDay, month, year);
    DateTextHasNoColon(w.startDay, month, year);
    DateTextHasNoColon(w.endDay, month, year);
    WeekLiteral(a, b);
    SplitThree("week", a, b, ':');
  }

  lemma WeekLiteral(a: string, b: string)
    ensures "week:" + a + ":" + b == "week" + [':'] + (a + [':'] + b)
  {
    assert "week:" == "week" + [':'];
  }

  lemma DateTextHasNoColon(day: nat, month: nat, year: nat)
    ensures ':' !in DateText(day, month, year)
  {
    DigitsHaveNoSeparator(Pad2(day), ':');
    DigitsHaveNoSeparator(Pad2(month), ':');
    DigitsHaveNoSeparator(Decimal(year), ':');
  }

  // ---------------------------------------------------------------- stored dates

  /**
   * `datetime.strptime(s, "%d-%m-%Y")` on a stored date (bot.py:306): two
   * digits, '-', two digits, '-', four digits, naming a date `datetime`
   * accepts; None where Python raises ValueError.
   */
  function ParseDate(s: string): (r: Option<Date>)
    ensures r.Some? ==> ValidDate(r.value)
  {
    if |s| == 10 && s[2] == '-' && s[5] == '-' && AllDigits(s[..2]) && AllDigits(s[3..5]) && AllDigits(s[6..]) then
      var d := Date(DigitsValue(s[..2]), DigitsValue(s[3..5]), DigitsValue(s[6..]));
      if ValidDate(d) then Some(d) else None
    else None
  }

  /** A stored date that parses to a year from 1000 on is the DD-MM-YYYY text of that date. */
  lemma ParseDateInverse(s: string)
    requires ParseDate(s).Some? && ParseDate(s).value.year >= 1000
    ensures DateText(ParseDate(s).value.day, ParseDate(s).value.month, ParseDate(s).value.year) == s
  {
    TwoDigits(s[..2]);
    TwoDigits(s[3..5]);
    NoLeadingZero(s[6..]);
    CanonicalDecimal(s[6..]);
    assert s == s[..2] + "-" + s[3..5] + "-" + s[6..];
  }

  /** A four-digit numeral worth at least 1000 does not start with '0'. */
  lemma NoLeadingZero(s: string)
    requires |s| == 4 && AllDigits(s) && DigitsValue(s) >= 1000
    ensures s[0] != '0'
  {
    assert s[..3][..2] == s[..2] && s[..2][..1] == s[..1] && s[..1][..0] == [];
    var d0, d1, d2, d3 := DigitValue(s[0]), DigitValue(s[1]), DigitValue(s[2]), DigitValue(s[3]);
    assert DigitsValue(s[..1]) == d0;
    assert DigitsValue(s[..2]) == d0 * 10 + d1;
    assert DigitsValue(s[..3]) == (d0 * 10 + d1) * 10 + d2;
    assert DigitsValue(s) == ((d0 * 10 + d1) * 10 + d2) * 10 + d3;
  }

  /** A year of four digits is written with four digits, the first not '0'. */
  lemma FourDigitYear(year: nat)
    requires 1000 <= year <= 9999
    ensures |Decimal(year)| == 4
  {
    assert Decimal(year) == Decimal(year / 10) + [DigitChar(year % 10)];
    assert Decimal(year / 10) == Decimal(year / 100) + [DigitChar(year / 10 % 10)];
    assert Decimal(year / 100) == Decimal(year / 1000) + [DigitChar(year / 100 % 10)];
  }

  /** A valid date from year 1000 on, written as DD-MM-YYYY, is read back as itself. */
  lemma DateTextParses(d: Date)
    requires ValidDate(d) && d.year >= 1000
    ensures ParseDate(DateText(d.day, d.month, d.year)) == Some(d)
  {
    var s := DateText(d.day, d.month, d.year);
    FourDigitYear(d.year);
    assert s[..2] == Pad2(d.day) && s[3..5] == Pad2(d.month) && s[6..] == Decimal(d.year);
  }

  /** The chronological order of `datetime` dates: year, then month, then day. */
  predicate DateBefore(a: Date, b: Date)
  {
    a.year < b.year || (a.year == b.year && (a.month < b.month || (a.month == b.month && a.day < b.day)))
  }

  /** A number that orders valid dates as `datetime` does: the sort key of bot.py:315. */
  function DateKey(d: Date): int
  {
    d.year * 10000 + d.month * 100 + d.day
  }

  /** On valid dates, comparing keys is comparing dates, and equal keys mean equal dates. */
  lemma DateKeyOrder(a: Date, b: Date)
    requires ValidDate(a) && ValidDate(b)
    ensures DateKey(a) < DateKey(b) <==> DateBefore(a, b)
    ensures DateKey(a) == DateKey(b) <==> a == b
  {
  }

  /** The English month abbreviations of "%b". */
  function MonthAbbreviation(month: int): (s: string)
    requires 1 <= month <= 12
    ensures |s| == 3
  {
    ["Jan", "Feb", "Mar", "Apr", "May", "Jun", "Jul", "Aug", "Sep", "Oct", "Nov", "Dec"][month - 1]
  }

  /** `strftime("%d %b %Y")` (bot.py:37, 320), the day padded to two digits and the year as a numeral. */
  function DisplayDate(d: Date): string
    requires ValidDate(d)
  {
    Pad2(d.day) + " " + MonthAbbreviation(d.month) + " " + Decimal(d.year)
  }

  /** Different valid dates are displayed differently. */
  lemma DisplayDateInjective(a: Date, b: Date)
    requires ValidDate(a) && ValidDate(b)
    ensures DisplayDate(a) == DisplayDate(b) <==> a == b
  {
    if DisplayDate(a) == DisplayDate(b) {
      var s := DisplayDate(a);
      var da, ma, ya := Pad2(a.day), MonthAbbreviation(a.month), Decimal(a.year);
      var db, mb, yb := Pad2(b.day), MonthAbbreviation(b.month), Decimal(b.year);
      assert |da| == 2 && |db| == 2;
      assert s == da + " " + ma + " " + ya && s == db + " " + mb + " " + yb;
      assert da == s[..2] == db;
      assert ma == s[3..6] == mb;
      assert ya == s[7..] == yb;
      MonthAbbreviationInjective(a.month, b.month);
    }
  }

  lemma MonthAbbreviationInjective(m1: int, m2: int)
    requires 1 <= m1 <= 12 && 1 <= m2 <= 12
    ensures MonthAbbreviation(m1) == MonthAbbreviation(m2) <==> m1 == m2
  {
  }
}
