/**
 * The booking conversation: the `user_state` dictionary of bot.py:42 and the
 * bookings table, updated by `book`, the button handlers and
 * `receive_meeting_details` (bot.py:55-288). Each handler returns the next
 * conversation state, and the callback data of the buttons it offers.
 */
module Session {
  import opened Wrappers
  import opened Text
  import opened Clock
  import opened Availability
  import opened Calendar
  import opened Table

  /** SELECTING_MONTH .. TYPING_DETAILS (bot.py:39). */
  datatype State = SelectingMonth | SelectingWeek | SelectingDate | SelectingStart | SelectingEnd | TypingDetails

  /**
   * What a handler hands back: the next state, `None` (the conversation stays
   * where it is), ConversationHandler.END, or an exception (IndexError,
   * KeyError or ValueError) that ends the handler early.
   */
  datatype Step = Goto(state: State) | Stay | End | Raised

  const CancelData := "cancel"

  /** `tag:value` for each value, in order: the callback data of a column of buttons. */
  function Tagged(tag: string, values: seq<string>): seq<string>
  {
    seq(|values|, i requires 0 <= i < |values| => tag + ":" + values[i])
  }

  /** The week buttons' data for a month (bot.py:90-100). */
  function WeekOptions(year: nat, month: nat): seq<string>
    requires 1 <= month <= 12
  {
    var ws := Weeks(DaysInMonth(year, month));
    seq(|ws|, i requires 0 <= i < |ws| => WeekCallback(ws[i], month, year))
  }

  /** The date buttons' data for a chosen week (bot.py:128-131). */
  function DateOptions(c: WeekChoice): seq<string>
  {
    var n := if c.endDay < c.startDay then 0 else c.endDay - c.startDay + 1;
    Tagged("date", seq(n, i requires 0 <= i < n => DateText(c.startDay + i, c.month, c.year)))
  }

  /** The start-time buttons' data for a date with these bookings (bot.py:176). */
  function StartOptions(booked: seq<Booked>): seq<string>
  {
    Tagged("start_time", FormatAll(StartMinutes(booked)))
  }

  /**
   * The end-time buttons' data after `start` (bot.py:239), with the end
   * times capped at the earliest later booking rather than the first one in
   * table order (see Availability.UnsortedTableAllowsDoubleBooking).
   */
  function EndOptions(start: Minute, booked: seq<Booked>): seq<string>
  {
    Tagged("end_time", FormatAll(CorrectedEndMinutes(start, booked)))
  }

  /** `datetime(year, month, 1)` and `monthrange(year, month)` accept the pair. */
  predicate MonthAccepted(ym: Option<(nat, nat)>)
  {
    ym.Some? && 1 <= ym.value.1 <= 12 && 1 <= ym.value.0 <= 9999
  }

  /** A month button's data reads back as its year and month (bot.py:66, 83-86). */
  lemma MonthOptionRoundTrip(year: nat, month: nat)
    ensures Field("month:" + MonthField(year, month), ':', 1) == Some(MonthField(year, month))
    ensures ParseYearMonth(MonthField(year, month)) == Some((year, month))
  {
    DigitsHaveNoSeparator(Decimal(year), ':');
    DigitsHaveNoSeparator(Pad2(month), ':');
    assert "month:" + MonthField(year, month) == "month" + [':'] + MonthField(year, month);
    FieldOfTagged("month", MonthField(year, month), ':');
    MonthFieldRoundTrip(year, month);
  }

  /** Each week button's data, handed back to handle_week_selection, yields that week (bot.py:98, 118-125). */
  lemma WeekOptionsRoundTrip(year: nat, month: nat, i: int)
    requires 1 <= month <= 12 && 0 <= i < |WeekOptions(year, month)|
    ensures var w := Weeks(DaysInMonth(year, month))[i];
            SelectedWeek(WeekOptions(year, month)[i]).Some? &&
            ParseWeek(SelectedWeek(WeekOptions(year, month)[i]).value) == Some(WeekChoice(w.startDay, month, year, w.endDay))
  {
    var w := Weeks(DaysInMonth(year, month))[i];
    WeekCallbackRoundTrip(w, month, year);
  }

  /** Each date button's data gives handle_date_selection back that date's DD-MM-YYYY text (bot.py:131, 149). */
  lemma DateOptionsRoundTrip(c: WeekChoice, i: int)
    requires 0 <= i < |DateOptions(c)|
    ensures Field(DateOptions(c)[i], ':', 1) == Some(DateText(c.startDay + i, c.month, c.year))
  {
    var n := if c.endDay < c.startDay then 0 else c.endDay - c.startDay + 1;
    var texts := seq(n, k requires 0 <= k < n => DateText(c.startDay + k, c.month, c.year));
    var text := texts[i];
    DateTextHasNoColon(c.startDay + i, c.month, c.year);
    assert DateOptions(c)[i] == "date" + ":" + text;
    FieldOfTagged("date", text, ':');
  }

  /** The date buttons' data are the tagged dates of the week, whichever way they were listed. */
  lemma DateOptionsOf(c: WeekChoice, dates: seq<string>)
    requires |dates| == if c.endDay < c.startDay then 0 else c.endDay - c.startDay + 1
    requires forall i :: 0 <= i < |dates| ==> dates[i] == DateText(c.startDay + i, c.month, c.year)
    ensures Tagged("date", dates) == DateOptions(c)
  {
    var n := |dates|;
    assert dates == seq(n, i requires 0 <= i < n => DateText(c.startDay + i, c.month, c.year));
  }

  /** The date loop of bot.py:128-131: one date button per day of the chosen week. */
  method DateButtons(c: WeekChoice) returns (options: seq<string>)
    ensures options == DateOptions(c)
  {
    var dates := WeekDates(c.startDay, c.endDay, c.month, c.year);
    DateOptionsOf(c, dates);
    options := Tagged("date", dates);
  }

  /** A tagged "%H%M" string gives back its time. */
  lemma TaggedTimeRoundTrip(tag: string, t: Minute)
    requires ':' !in tag
    ensures Field(tag + ":" + Format(t), ':', 1) == Some(Format(t))
    ensures Parse(Format(t)) == Some(t)
  {
    DigitsHaveNoSeparator(Format(t), ':');
    assert tag + ":" + Format(t) == tag + [':'] + Format(t);
    FieldOfTagged(tag, Format(t), ':');
    ParseFormat(t);
  }

  /**
   * Each start-time button's data gives handle_start_time_selection back the
   * offered start time (bot.py:176, 192, 196).
   */
  lemma StartOptionsRoundTrip(booked: seq<Booked>, i: int)
    requires 0 <= i < |StartMinutes(booked)|
    ensures |StartOptions(booked)| == |StartMinutes(booked)|
    ensures Field(StartOptions(booked)[i], ':', 1).Some?
    ensures Parse(Field(StartOptions(booked)[i], ':', 1).value) == Some(StartMinutes(booked)[i])
  {
    var t: Minute := StartMinutes(booked)[i];
    assert StartOptions(booked)[i] == "start_time" + ":" + Format(t);
    TaggedTimeRoundTrip("start_time", t);
  }

  /** Each end-time button's data gives handle_end_time_selection back the offered end time (bot.py:239, 256). */
  lemma EndOptionsRoundTrip(start: Minute, booked: seq<Booked>, i: int)
    requires 0 <= i < |CorrectedEndMinutes(start, booked)|
    ensures |EndOptions(start, booked)| == |CorrectedEndMinutes(start, booked)|
    ensures Field(EndOptions(start, booked)[i], ':', 1).Some?
    ensures Parse(Field(EndOptions(start, booked)[i], ':', 1).value) == Some(CorrectedEndMinutes(start, booked)[i])
  {
    var e: Minute := CorrectedEndMinutes(start, booked)[i];
    assert EndOptions(start, booked)[i] == "end_time" + ":" + Format(e);
    TaggedTimeRoundTrip("end_time", e);
  }

  /**
   * The bot's state: every user's answers so far and the bookings table. All
   * handlers run one after another, as the event loop runs them.
   */
  class Bot {
    /** user_state (bot.py:42): for each user id, the answers given so far by key. */
    var userState: map<int, map<string, string>>
    /** The bookings table, in table order. */
    var bookings: seq<Row>

    constructor(rows: seq<Row>)
      ensures userState == map[] && bookings == rows
    {
      userState := map[];
      bookings := rows;
    }

    /** `book` (bot.py:55-71): reset the caller's answers and ask for a month. */
    method Book(user: int) returns (step: Step)
      modifies this
      ensures userState == old(userState)[user := map[]]
      ensures bookings == old(bookings)
      ensures step == Goto(SelectingMonth)
    {
      userState := userState[user := map[]];
      step := Goto(SelectingMonth);
    }

    /**
     * `user_state[user][key] = value` (bot.py:84, 120, 150, 193, 257, 268):
     * false where the user has no entry and Python raises KeyError.
     */
    method Record(user: int, key: string, value: string) returns (ok: bool)
      modifies this
      ensures ok <==> user in old(userState)
      ensures ok ==> userState == old(userState)[user := old(userState)[user][key := value]]
      ensures !ok ==> userState == old(userState)
      ensures bookings == old(bookings)
    {
      ok := user in userState;
      if ok {
        userState := userState[user := userState[user][key := value]];
      }
    }

    /** handle_month_selection (bot.py:73-106). */
    method HandleMonthSelection(user: int, data: string) returns (step: Step, options: seq<string>)
      modifies this
      ensures bookings == old(bookings)
      ensures data == CancelData ==> step == Stay && userState == old(userState)
      ensures data != CancelData && (Field(data, ':', 1).None? || user !in old(userState)) ==>
                step == Raised && userState == old(userState)
      ensures data != CancelData && Field(data, ':', 1).Some? && user in old(userState) ==>
                var selected := Field(data, ':', 1).value;
                var ym := ParseYearMonth(selected);
                userState == old(userState)[user := old(userState)[user]["month" := selected]] &&
                (if MonthAccepted(ym) then step == Goto(SelectingWeek) && options == WeekOptions(ym.value.0, ym.value.1)
                 else step == Raised)
    {
      options := [];
      if data == CancelData {
        return Stay, options;
      }
      var selected := Field(data, ':', 1);
      if selected.None? {
        return Raised, options;
      }
      var ok := Record(user, "month", selected.value);
      if !ok {
        return Raised, options;
      }
      var ym := ParseYearMonth(selected.value);
      if !MonthAccepted(ym) {
        return Raised, options;
      }
      var year, month := ym.value.0, ym.value.1;
      var weeks := MonthWeeks(DaysInMonth(year, month));
      options := seq(|weeks|, i requires 0 <= i < |weeks| => WeekCallback(weeks[i], month, year));
      step := Goto(SelectingWeek);
    }

    /** handle_week_selection (bot.py:108-137). */
    method HandleWeekSelection(user: int, data: string) returns (step: Step, options: seq<string>)
      modifies this
      ensures bookings == old(bookings)
      ensures data == CancelData ==> step == Stay && userState == old(userState)
      ensures data != CancelData && (SelectedWeek(data).None? || user !in old(userState)) ==>
                step == Raised && userState == old(userState)
      ensures data != CancelData && SelectedWeek(data).Some? && user in old(userState) ==>
                var selected := SelectedWeek(data).value;
                userState == old(userState)[user := old(userState)[user]["week" := selected]] &&
                (if ParseWeek(selected).Some? then step == Goto(SelectingDate) && options == DateOptions(ParseWeek(selected).value)
                 else step == Raised)
    {
      options := [];
      if data == CancelData {
        return Stay, options;
      }
      var selected := SelectedWeek(data);
      if selected.None? {
        return Raised, options;
      }
      var ok := Record(user, "week", selected.value);
      if !ok {
        return Raised, options;
      }
      var choice := ParseWeek(selected.value);
      if choice.None? {
        return Raised, options;
      }
      var c := choice.value;
      options := DateButtons(c);
      step := Goto(SelectingDate);
    }

    /** handle_date_selection (bot.py:139-180). */
    method HandleDateSelection(user: int, data: string) returns (step: Step, options: seq<string>)
      modifies this
      ensures bookings == old(bookings)
      ensures data == CancelData ==> step == Stay && userState == old(userState)
      ensures data != CancelData && (Field(data, ':', 1).None? || user !in old(userState)) ==>
                step == Raised && userState == old(userState)
      ensures data != CancelData && Field(data, ':', 1).Some? && user in old(userState) ==>
                var selected := Field(data, ':', 1).value;
                userState == old(userState)[user := old(userState)[user]["date" := selected]] &&
                (if BookedOn(bookings, selected).Some? then
                   step == Goto(SelectingStart) && options == StartOptions(BookedOn(bookings, selected).value)
                 else step == Raised)
    {
      options := [];
      if data == CancelData {
        return Stay, options;
      }
      var selected := Field(data, ':', 1);
      if selected.None? {
        return Raised, options;
      }
      var ok := Record(user, "date", selected.value);
      if !ok {
        return Raised, options;
      }
      var booked := BookedOn(bookings, selected.value);
      if booked.None? {
        return Raised, options;
      }
      var timeSlots := AvailableStartTimes(booked.value);
      options := Tagged("start_time", FormatAll(timeSlots));
      step := Goto(SelectingStart);
    }

    /**
     * handle_start_time_selection (bot.py:182-243), offering the end times
     * capped at the earliest later booking.
     */
    method HandleStartTimeSelection(user: int, data: string) returns (step: Step, options: seq<string>)
      modifies this
      ensures bookings == old(bookings)
      ensures data == CancelData ==> step == Stay && userState == old(userState)
      ensures data != CancelData && (Field(data, ':', 1).None? || user !in old(userState)) ==>
                step == Raised && userState == old(userState)
      ensures data != CancelData && Field(data, ':', 1).Some? && user in old(userState) ==>
                var selected := Field(data, ':', 1).value;
                var answers := old(userState)[user];
                userState == old(userState)[user := answers["start_time" := selected]] &&
                (if "date" in answers && Parse(selected).Some? && BookedOn(bookings, answers["date"]).Some? then
                   step == Goto(SelectingEnd) &&
                   options == EndOptions(Parse(selected).value, BookedOn(bookings, answers["date"]).value)
                 else step == Raised)
    {
      options := [];
      if data == CancelData {
        return Stay, options;
      }
      var selected := Field(data, ':', 1);
      if selected.None? {
        return Raised, options;
      }
      var ok := Record(user, "start_time", selected.value);
      if !ok {
        return Raised, options;
      }
      if "date" !in userState[user] {
        return Raised, options;
      }
      var date := userState[user]["date"];
      var start := Parse(selected.value);
      if start.None? {
        return Raised, options;
      }
      var booked := BookedOn(bookings, date);
      if booked.None? {
        return Raised, options;
      }
      var timeSlots := AvailableEndTimesCorrected(start.value, booked.value);
      options := Tagged("end_time", FormatAll(timeSlots));
      step := Goto(SelectingEnd);
    }

    /** handle_end_time_selection (bot.py:246-261). */
    method HandleEndTimeSelection(user: int, data: string) returns (step: Step)
      modifies this
      ensures bookings == old(bookings)
      ensures data == CancelData ==> step == End && userState == old(userState)
      ensures data != CancelData && (Field(data, ':', 1).None? || user !in old(userState)) ==>
                step == Raised && userState == old(userState)
      ensures data != CancelData && Field(data, ':', 1).Some? && user in old(userState) ==>
                userState == old(userState)[user := old(userState)[user]["end_time" := Field(data, ':', 1).value]] &&
                step == Goto(TypingDetails)
    {
      if data == CancelData {
        return End;
      }
      var selected := Field(data, ':', 1);
      if selected.None? {
        return Raised;
      }
      var ok := Record(user, "end_time", selected.value);
      if !ok {
        return Raised;
      }
      step := Goto(TypingDetails);
    }

    /**
     * receive_meeting_details (bot.py:263-288): record the details, append
     * one row built from the user's answers, with no re-check against the
     * table, and forget the user's answers.
     */
    method ReceiveMeetingDetails(user: int, username: string, details: string) returns (step: Step)
      modifies this
      ensures user !in old(userState) ==> step == Raised && userState == old(userState) && bookings == old(bookings)
      ensures user in old(userState) ==>
                var answers := old(userState)[user]["details" := details];
                if "date" in answers && "start_time" in answers && "end_time" in answers then
                  step == End &&
                  bookings == old(bookings) + [Row(answers["date"], answers["start_time"], answers["end_time"], username, details)] &&
                  userState == old(userState) - {user}
                else
                  step == Raised && bookings == old(bookings) && userState == old(userState)[user := answers]
    {
      var ok := Record(user, "details", details);
      if !ok {
        return Raised;
      }
      var answers := userState[user];
      if "date" !in answers || "start_time" !in answers || "end_time" !in answers {
        return Raised;
      }
      bookings := bookings + [Row(answers["date"], answers["start_time"], answers["end_time"], username, details)];
      userState := userState - {user};
      step := End;
    }
  }
}
