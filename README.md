# Conference-room booking bot: scheduling core in Dafny

`bot.py` is a Telegram bot that books one conference room. Each booking is a
row `(date, start_time, end_time, username, details)` of a bookings table. A
user walks through a conversation:

1. `/book` starts it.
2. The user picks a month, then a week of that month (7-day chunks), then a
   date.
3. The bot offers free one-hour start times between 09:00 and 17:00.
4. After a start is chosen, it offers end times up to 18:00 or up to the next
   booking.
5. The user types the meeting's details and the booking is appended to the
   table.

`/list` shows the bookings that have not yet ended, sorted by date.

This project models that core and proves properties about it:

- `clock.dfy`: times are minutes since midnight. It models the "%H%M" format
  and its parser, and the one-hour step that wraps past midnight.
- `text.dfy`: digits, `str.split`/`join`, `int()` on digit strings, `:02d`
  padding and decimal numerals.
- `availability.dfy`: the start-time test and the end-time walk of
  `handle_date_selection` and `handle_start_time_selection`. This includes
  the double booking described under Findings, with its corrected version.
- `calendar.dfy`: the Gregorian days in a month, the week chunks, the
  callback strings that carry a month, a week or a date between steps, and the
  date formats "%d-%m-%Y" and "%d %b %Y".
- `table.dfy`: the bookings table as a sequence of rows in table order, the
  per-date query and the parsing of its time columns.
- `upcoming.dfy`: `list_bookings`, meaning the filter on `now`, Python's
  stable sort by date, and the reply text.
- `session.dfy`: class `Bot`, which holds the `user_state` dictionary and the
  table.
  - Its methods are the conversation handlers. Each returns the next state
    and the callback data of the buttons it offers.
  - An exception a handler would raise (IndexError, KeyError, ValueError) is
    the step `Raised`. A write into `user_state` made before the exception is
    kept, as in Python.
  - A cancel that returns `None` is `Stay`.

The end-time computation is modelled twice:

- `Availability.AvailableEndTimes` is the computation as written. Its "next
  booking" is the first later start in table order.
- `Availability.AvailableEndTimesCorrected` caps the end times at the
  earliest later start instead. `Session.Bot.HandleStartTimeSelection`
  offers these corrected end times.

Findings explains why.

## Model

| member | source | states |
|---|---|---|
| Clock.Format | bot.py:38 | "%H%M" writes every time of day as exactly four digits |
| Clock.ParseInverse | bot.py:157 | a string that parses as "%H%M" is exactly the "%H%M" text of the time it parses to |
| Clock.ParseFormat | bot.py:173 | reading back a formatted time gives that time |
| Clock.FormatInjective | bot.py:235 | two times have equal "%H%M" strings exactly when they are equal |
| Clock.AddHour | bot.py:165 | adding `timedelta(hours=1)` and taking `.time()` gives t+60, or t+60-1440 past midnight |
| Clock.Hour | bot.py:215 | `.hour` is the hour h with h*60 <= t < h*60+60 |
| Text.Decimal | bot.py:98 | `str(n)` is a digit string with value n, one character long exactly when n < 10, starting with '0' only for 0 |
| Text.Pad2 | bot.py:98 | `:02d` is a digit string with value n, exactly two characters when n < 100, starting with '0' exactly when n < 10 |
| Text.TwoDigits | bot.py:130 | every two-digit string is the `:02d` text of its value |
| Text.ParseNat | bot.py:86 | the modelled `int()` succeeds exactly on non-empty digit strings |
| Text.Split | bot.py:83 | `str.split` gives at least one piece, no piece holds the separator, and joining the pieces gives the string back |
| Text.Field | bot.py:149 | `data.split(':')[k]` is present exactly when the split has more than k parts, is then that part and holds no separator; absent where Python raises IndexError |
| Text.SplitJoin | bot.py:119 | splitting a join of separator-free pieces gives the pieces back |
| Text.SplitFirst | bot.py:123 | a separator-free head splits off as the first piece |
| Text.FieldOfTagged | bot.py:192 | field 1 of `tag:value` is the value when neither part holds ':' |
| Availability.ClashesIsIntersection | bot.py:166-171 | the three-clause test on [t, t+60) is half-open intersection for a well-formed booking, and also catches a start inside the slot of an ill-formed one |
| Availability.StartOffered | bot.py:159-173 | t is offered exactly when it is a whole hour from 09:00 to 17:00 whose slot passes the test against every booking |
| Availability.StartOfferedIffNoOverlap | bot.py:163-173 | with well-formed bookings, t is offered exactly when [t, t+60) intersects no booked [start, end) |
| Availability.StartMinutesAscending | bot.py:162-173 | the offered start times ascend strictly and lie within 09:00..17:00 |
| Availability.StartsBeforeNothingBooked | bot.py:163-173 | with no bookings every hour of the loop is kept |
| Availability.NoBookingsAllNine | bot.py:159-173 | with no bookings the offer is exactly the nine slots 09:00..17:00 |
| Availability.StartsBeforeMember | bot.py:163-173 | after the loop has reached an hour, it has kept exactly the free whole hours before that hour |
| Availability.StartsBeforeIncreasing | bot.py:163-173 | the kept hours ascend strictly and lie within the hours the loop has run |
| Availability.AvailableStartTimes | bot.py:159-173 | the loop yields the specified start times |
| Availability.FormatAllMember | bot.py:235 | a time's "%H%M" string is in the list exactly when the time is, so the string test is a test on times |
| Availability.NextBookingStart | bot.py:206-210 | the next booking is absent exactly when no booking starts after the start; otherwise it is later than the start, and it is the start of the first such booking in table order |
| Availability.FindNextBookingStart | bot.py:206-210 | the early-exit scan finds that next booking |
| Availability.EndLimit | bot.py:213-215 | the cap is a whole hour, at most 18:00 and at most the next booking's start, and it is 18:00 or within the hour before that start |
| Availability.EndWalkMember | bot.py:217-232 | the walk keeps exactly the whole-hour steps up to the cap and the next booking's start that lie strictly inside no booking |
| Availability.EndWalkIncreasing | bot.py:217-232 | the walk's times ascend strictly |
| Availability.WalkEndTimes | bot.py:217-232 | the while loop, with its break, yields the specified walk |
| Availability.EndTimesFor | bot.py:212-236 | the cap, the walk and the final append yield the specified end times |
| Availability.EndsInRange | bot.py:212-236 | every offered end time is a time of day |
| Availability.EndOffered | bot.py:212-236 | e is offered exactly when it is the next booking's start, or a whole hour after the start, up to the cap, lying strictly inside no booking |
| Availability.EndBounds | bot.py:212-236 | every offered end is after the start and never past the next booking's start; it is at most 18:00 unless it is that start; other ends are at least start+1h and strictly inside no booking |
| Availability.EndsAscending | bot.py:217-236 | the end times ascend strictly, hence without duplicates; when a next booking exists, its start is the last and largest end |
| Availability.AvailableEndTimes | bot.py:205-236 | handle_start_time_selection's computation yields the specified end times |
| Availability.OfferedBookingLastsAnHour | bot.py:159-236 | an offered start followed by one of its offered ends books at least one hour |
| Availability.UnsortedTableAllowsDoubleBooking | bot.py:206-210 | with the table listing 13:00-14:00 before 11:00-12:00, 10:00 is offered and then 12:00 as an end, so the booking 10:00-12:00 overlaps 11:00-12:00 |
| Availability.EarliestLaterUnique | bot.py:206-210 | the earliest later start is unique |
| Availability.EarliestStartAfter | bot.py:206-210 | corrected choice: the earliest start among all bookings that is later than the start |
| Availability.FindEarliestStartAfter | bot.py:206-210 | a scan of the whole table finds that earliest later start |
| Availability.SortedNextIsEarliest | bot.py:199-210 | when the rows are sorted by start, the first later start is the earliest one |
| Availability.EarliestCapPreventsOverlap | bot.py:221-223 | capped by the earliest later start, no offered end makes [start, end) intersect a booking |
| Availability.CorrectedEndMinutes | bot.py:205-236 | the corrected end times are times of day |
| Availability.AvailableEndTimesCorrected | bot.py:205-236 | the corrected computation yields the corrected end times |
| Availability.CorrectedEndTimesNeverOverlap | bot.py:159-236 | an offered start and a corrected end never overlap any booking, whatever the table order |
| Availability.CorrectedAgreesWhenSorted | bot.py:199-210 | on a table sorted by start, the corrected and the as-written end times coincide |
| Availability.NoDoubleBookingWhenSorted | bot.py:159-236 | on a table sorted by start, an offered start and end never overlap a booking |
| Calendar.DaysInMonth | bot.py:87 | `monthrange(year, month)[1]` is 28 to 31 |
| Calendar.YearLength | bot.py:87 | the month lengths add up to 366 in a Gregorian leap year and to 365 otherwise |
| Calendar.WeekCount | bot.py:92-100 | the loop produces ceil(numDays/7) chunks |
| Calendar.WeeksPartition | bot.py:90-100 | the chunks start on day 1 and end on the month's last day; each starts the day after the previous one; each holds one to seven days; every day lies in exactly the chunk (d-1)/7 |
| Calendar.MonthWeeks | bot.py:90-100 | the while loop yields exactly those chunks |
| Calendar.DateTextFields | bot.py:130 | a DD-MM-YYYY string splits at '-' into the padded day, the padded month and the year |
| Calendar.ParseDayMonthYear | bot.py:124-125 | the three-field parse succeeds exactly on three numeral fields and yields their values |
| Calendar.CanonicalDecimal | bot.py:98 | a digit string without a leading zero is the decimal of its value |
| Calendar.DateTextRoundTrip | bot.py:124 | DD-MM-YYYY read back gives its day, month and year |
| Calendar.WeekDates | bot.py:128-131 | the date loop yields one DD-MM-YYYY string per day from the week's start to its end, in order |
| Calendar.ParseYearMonth | bot.py:86 | the month field parses exactly when it is two numerals around '-', and yields their values |
| Calendar.MonthFieldRoundTrip | bot.py:66 | the "%Y-%m" month field reads back as its year and month |
| Calendar.SelectedWeek | bot.py:118-119 | the selected week exists exactly when the data has at least three ':' fields, and it splits into the second and third fields |
| Calendar.ParseWeek | bot.py:123-125 | a week parses only from two halves of three numerals each, and yields the start's day, month and year and the end's day |
| Calendar.WeekCallbackRoundTrip | bot.py:98 | a week button's data, handed back, yields that week's start day, month, year and end day |
| Calendar.WeekCallbackFields | bot.py:98 | a week button's data splits at ':' into "week" and the two dates |
| Calendar.DateTextHasNoColon | bot.py:130 | a DD-MM-YYYY string holds no ':' |
| Calendar.ParseDate | bot.py:306 | a stored date that parses is a date `datetime` accepts |
| Calendar.ParseDateInverse | bot.py:306 | a stored date that parses, with a year from 1000 on, is the DD-MM-YYYY text of that date |
| Calendar.FourDigitYear | bot.py:306 | years 1000..9999 are written with four digits |
| Calendar.NoLeadingZero | bot.py:306 | a four-digit numeral worth at least 1000 does not start with '0' |
| Calendar.DateTextParses | bot.py:130 | a valid date from year 1000 on, written by the week step, is read back by `/list` as itself |
| Calendar.DateKeyOrder | bot.py:315 | on valid dates, comparing sort keys is chronological comparison, and equal keys mean equal dates |
| Calendar.MonthAbbreviation | bot.py:37 | "%b" is three letters |
| Calendar.DisplayDateInjective | bot.py:320 | different valid dates are displayed differently by "%d %b %Y" |
| Table.RowsOn | bot.py:153 | the rows of a date are exactly the table's rows with that date, no more of them than the table holds |
| Table.RowsOnAppend | bot.py:153 | the per-date query keeps table order: it distributes over concatenation |
| Table.SlotOf | bot.py:157 | a row's pair exists exactly when both time columns parse |
| Table.SlotOfSpells | bot.py:157 | a parsed pair is the one the row's columns spell in "%H%M" |
| Table.ParseSlots | bot.py:203 | the comprehension succeeds exactly when every row parses, and then yields each row's pair in table order |
| Table.BookedOnOtherDate | bot.py:276 | a row appended for another date leaves a date's booked slots as they were |
| Upcoming.ParseEntry | bot.py:306-308 | a row parses exactly when its date, start and end all parse; the entry then holds those parsed values, a valid date, and the row's username and details |
| Upcoming.ParseEntriesStep | bot.py:305-308 | parsing one more row appends its entry, and a row that fails makes the whole table fail |
| Upcoming.ParseEntries | bot.py:305-308 | parsing succeeds exactly when every row parses, and then yields each row's entry in table order |
| Upcoming.UpcomingOfExact | bot.py:305-312 | the filter keeps each entry that has not ended as often as it occurs, and nothing else |
| Upcoming.UpcomingOfMember | bot.py:311 | an entry is kept exactly when it is in the table and has not ended |
| Upcoming.UpcomingOfAppend | bot.py:311-312 | one more entry is kept at the end exactly when it has not ended |
| Upcoming.UpcomingOfOnDate | bot.py:305-315 | filtering keeps each date's entries in table order: the kept entries of a date are that date's entries, filtered |
| Upcoming.SelectUpcoming | bot.py:305-312 | the row loop fails exactly when some row does not parse, and otherwise yields the filtered entries |
| Upcoming.InsertByDatePermutes | bot.py:315 | inserting adds exactly the new entry |
| Upcoming.InsertByDateSorted | bot.py:315 | inserting into date order keeps date order |
| Upcoming.InsertByDateBounded | bot.py:315 | inserting adds no date later than a bound every entry and the new one respect |
| Upcoming.InsertByDateStable | bot.py:315 | inserting places the entry after those of its own date and reorders none of them |
| Upcoming.SortByDateSpec | bot.py:315 | the sort yields date order, holds the same entries, and keeps each date's entries in table order (a stable sort) |
| Upcoming.OnDateAppend | bot.py:315 | the entries of one date grow by the appended entry when it has that date |
| Upcoming.ResponseEmptyIff | bot.py:329-330 | the reply is "There are no upcoming bookings." exactly when no booking is upcoming |
| Upcoming.ListedAreValid | bot.py:305-315 | every parsed, kept and sorted entry has a valid date |
| Upcoming.PrefixValid | bot.py:319-326 | a prefix of entries with valid dates has valid dates |
| Upcoming.LinesStep | bot.py:326 | each booking adds its line after the lines before it |
| Upcoming.WriteLines | bot.py:319-326 | the line loop yields the heading followed by one line per booking, in order |
| Upcoming.ListBookings | bot.py:290-332 | `/list` fails exactly when some row does not parse, and otherwise replies with the response for the sorted upcoming bookings |
| Session.MonthOptionRoundTrip | bot.py:83-86 | a month button's data yields its month field, which reads back as its year and month |
| Session.WeekOptionsRoundTrip | bot.py:118-125 | each week button of a month, handed back, yields that week of the partition |
| Session.DateOptionsRoundTrip | bot.py:149 | each date button's data gives back that date's DD-MM-YYYY text |
| Session.DateOptionsOf | bot.py:128-131 | the tagged dates of the week are the date buttons' data |
| Session.DateButtons | bot.py:128-131 | the date loop yields the date buttons' data |
| Session.TaggedTimeRoundTrip | bot.py:192-196 | a tagged "%H%M" string gives back the string, and that string the time |
| Session.StartOptionsRoundTrip | bot.py:192-196 | each start-time button's data gives back the offered start time |
| Session.EndOptionsRoundTrip | bot.py:256 | each end-time button's data gives back the offered (corrected) end time |
| Session.Bot.constructor | bot.py:42 | no user has a session; the table holds the given rows |
| Session.Bot.Book | bot.py:55-71 | the caller's answers are reset to empty and other users' are unchanged; the table is unchanged; the next state is month selection |
| Session.Bot.Record | bot.py:84 | writing an answer fails (KeyError) exactly when the user has no session; otherwise it sets that one key of that one user |
| Session.Bot.HandleMonthSelection | bot.py:73-106 | the outcomes, in Python's order: cancel changes nothing; a missing field or session raises with no change; otherwise "month" is written, and then the step raises unless the month parses, lies in 1..12 and has a year in 1..9999, in which case the week buttons are offered |
| Session.Bot.HandleWeekSelection | bot.py:108-137 | cancel changes nothing; fewer than three fields, or no session, raises with no change; otherwise "week" is written, and the step raises unless the week parses, in which case that week's date buttons are offered |
| Session.Bot.HandleDateSelection | bot.py:139-180 | cancel changes nothing; otherwise "date" is written, and the step raises unless every booked row of that date parses, in which case the free start times are offered |
| Session.Bot.HandleStartTimeSelection | bot.py:182-243 | cancel changes nothing; otherwise "start_time" is written, and the step raises unless a date was chosen, the start parses and that date's rows parse, in which case the end times capped at the earliest later booking are offered (the correction under Findings) |
| Session.Bot.HandleEndTimeSelection | bot.py:246-261 | cancel ends the conversation with no change; otherwise "end_time" is written and the details are asked for |
| Session.Bot.ReceiveMeetingDetails | bot.py:263-288 | with a full session: exactly one row (date, start, end, username, details) is appended, with no re-check against the table; existing rows are unchanged; that user's session is removed and others are untouched; the conversation ends. Without a session, or with a missing answer, it raises, keeping the written details |

## Left out

- Telegram I/O is left out: replies, message edits, keyboard layout and button
  labels (bot.py:44-53, 60-70, 175-179, 238-242). The handlers return the
  buttons' callback data only. The fixed "Back" and "Cancel" buttons are
  omitted.
- The month buttons of `book` (bot.py:61-67) are left out. They depend on the
  clock and on 30-day offsets.
  - Session.MonthOptionRoundTrip states what the month step reads from such a
    button.
- The PostgreSQL connection, `CREATE TABLE` and SQL execution are left out.
  The table is a sequence of rows in the order the query returns them. The
  `id` column is not modelled.
- ConversationHandler wiring, fallbacks and the framework's dispatch on
  states are left out (bot.py:338-388).
  - A handler's return value is the step `Goto`, `Stay` or `End`.
  - An exception is `Raised`, which the framework would log.
- Logging, `print`, dotenv and the environment (bot.py:10-19, 265, 297, 316)
  are left out.
- Concurrent commits by different users are left out. The handlers run one at
  a time.
- `datetime.now()` is a parameter, cut to its date and minute. Stored end times
  are whole minutes, so the comparison at bot.py:311 is unchanged.
- `datetime.today()` in `datetime.combine` is irrelevant once times are
  minutes: adding an hour is `(t + 60) % 1440`.
- Text.ParseNat: `int()` also accepts signs, surrounding whitespace,
  underscores and non-ASCII digits. The model accepts ASCII digit strings
  only.
- Calendar.ParseDate: `strptime("%d-%m-%Y")` also accepts one-digit days and
  months, a space-padded day (" 1-01-2024") and non-ASCII digits.
  The model accepts exactly DD-MM-YYYY in ASCII digits, which is what the bot
  writes for years 1000..9999.
- Clock.Parse: `strptime("%H%M")` also accepts one-digit hours and minutes
  (for example "930") and non-ASCII digits. The model accepts exactly four
  ASCII digits, which is what the bot writes. For such a text, whether a
  callback's start time or a stored row's time, the model raises in
  `HandleStartTimeSelection` (and for a stored row in `HandleDateSelection`
  and `/list`) where Python would go on. Clock.ParseInverse is stated for the
  strict form.
- Session.Bot.HandleStartTimeSelection: it offers the corrected end times
  (`CorrectedEndMinutes`, capped at the earliest later booking), not the end
  times bot.py:206-236 computes (`EndMinutes`, capped at the first later
  booking in table order). They differ only on a table not sorted by start:
  for the rows 13:00-14:00 then 11:00-12:00 and the start "1000", the bot
  offers 1100, 1200 and 1300, and the model offers 1100 only. The as-written
  computation is `Availability.AvailableEndTimes`; see "## Findings".
- Calendar.ParseDateInverse: it assumes a year from 1000 on. For an earlier
  year the bot writes fewer than four year digits, and `/list` would not read
  them back. A `/book` started with the clock's current year never produces
  such a year.
- Calendar.MonthAbbreviation: the "%b" names are those of the C/English
  locale.
- The username is a string. Telegram may give `None`, which the SQL row
  stores as NULL; that case is not modelled.
- Upcoming.SortByDateSpec: `list.sort` sorts in place. The model sorts a value
  (insertion sort), and proves it is the stable sort by date.

## Findings

| source | as written | input that shows it | evidently intended | confidence | as-written member | corrected member |
|---|---|---|---|---|---|---|
| bot.py:206-210 | the next booking is the first booked slot in table order that starts after the chosen start; the query at bot.py:199 has no ORDER BY | table rows 13:00-14:00 then 11:00-12:00 on one date; start 10:00 is offered, the next booking is taken as 13:00, and 12:00 is offered as an end, so 10:00-12:00 overlaps 11:00-12:00 | cap the end times at the earliest later start (bot.py:221: the end time must not extend into the next booking) | not executed | Availability.UnsortedTableAllowsDoubleBooking | Availability.CorrectedEndTimesNeverOverlap |
