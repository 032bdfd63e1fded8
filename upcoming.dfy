/**
 * `/list` (bot.py:290-332): parse every row of the bookings table, keep the
 * bookings that have not yet ended, sort them by date with Python's stable
 * sort, and write one line per booking, or a fixed text when none is left.
 */
module Upcoming {
  import opened Wrappers
  import opened Clock
  import opened Calendar
  import opened Table

  /** A row of the table with its date and times parsed (bot.py:306-312). */
  datatype Entry = Entry(date: Date, start: Minute, end: Minute, username: string, details: string)

  /**
   * `datetime.now()` cut down to its date and its minute of the day. The end
   * times compared with it are whole minutes, so `end > now` holds exactly
   * when `end` is later than now's minute.
   */
  datatype Moment = Moment(date: Date, minute: Minute)

  /** The three strptime calls of bot.py:306-308; None where one raises ValueError. */
  function ParseEntry(row: Row): (r: Option<Entry>)
    ensures r.Some? <==> ParseDate(row.date).Some? && Parse(row.startTime).Some? && Parse(row.endTime).Some?
    ensures r.Some? ==>
              r.value.date == ParseDate(row.date).value && ValidDate(r.value.date) &&
              r.value.start == Parse(row.startTime).value && r.value.end == Parse(row.endTime).value &&
              r.value.username == row.username && r.value.details == row.details
  {
    match (ParseDate(row.date), Parse(row.startTime), Parse(row.endTime))
      case (Some(date), Some(start), Some(end)) => Some(Entry(date, start, end, row.username, row.details))
      case _ => None
  }

  /** Every row's entry, in table order; None where some row makes Python raise. */
  function ParseEntries(rows: seq<Row>): (r: Option<seq<Entry>>)
    ensures r.Some? <==> forall i :: 0 <= i < |rows| ==> ParseEntry(rows[i]).Some?
    ensures r.Some? ==> |r.value| == |rows| && forall i :: 0 <= i < |rows| ==> r.value[i] == ParseEntry(rows[i]).value
    decreases |rows|
  {
    if rows == [] then Some([])
    else
      var init := ParseEntries(rows[..|rows| - 1]);
      assert forall i :: 0 <= i < |rows| - 1 ==> rows[..|rows| - 1][i] == rows[i];
      var last := ParseEntry(rows[|rows| - 1]);
      if init.Some? && last.Some? then Some(init.value + [last.value]) else None
  }

  /** Parsing one more row extends the parsed prefix by that row's entry; a row that fails fails the whole table. */
  lemma ParseEntriesStep(rows: seq<Row>, i: nat)
    requires i < |rows| && ParseEntries(rows[..i]).Some?
    ensures ParseEntries(rows[..i + 1]) ==
              if ParseEntry(rows[i]).Some? then Some(ParseEntries(rows[..i]).value + [ParseEntry(rows[i]).value]) else None
    ensures ParseEntry(rows[i]).None? ==> ParseEntries(rows).None?
  {
    assert rows[..i + 1][..i] == rows[..i];
  }

  /** `datetime.combine(booking_date, booking_end_time) > now` (bot.py:311). */
  predicate IsUpcoming(e: Entry, now: Moment)
  {
    DateBefore(now.date, e.date) || (e.date == now.date && now.minute < e.end)
  }

  /** The entries that have not ended, in table order. */
  function UpcomingOf(es: seq<Entry>, now: Moment): seq<Entry>
    decreases |es|
  {
    if es == [] then []
    else UpcomingOf(es[..|es| - 1], now) + (if IsUpcoming(es[|es| - 1], now) then [es[|es| - 1]] else [])
  }

  /**
   * The filter keeps exactly the entries that have not ended: each of them
   * as often as it occurs, and nothing else.
   */
  lemma {:induction false} UpcomingOfExact(es: seq<Entry>, now: Moment, x: Entry)
    ensures multiset(UpcomingOf(es, now))[x] == if IsUpcoming(x, now) then multiset(es)[x] else 0
    decreases |es|
  {
    if es != [] {
      var init, last := es[..|es| - 1], es[|es| - 1];
      UpcomingOfExact(init, now, x);
      assert es == init + [last];
    }
  }

  /** One more entry is kept, at the end, exactly when it has not ended. */
  lemma UpcomingOfAppend(es: seq<Entry>, x: Entry, now: Moment)
    ensures UpcomingOf(es + [x], now) == UpcomingOf(es, now) + (if IsUpcoming(x, now) then [x] else [])
  {
    assert (es + [x])[..|es|] == es;
  }

  /** An entry is kept exactly when it is in the table and has not ended. */
  lemma UpcomingOfMember(es: seq<Entry>, now: Moment, x: Entry)
    ensures x in UpcomingOf(es, now) <==> x in es && IsUpcoming(x, now)
  {
    UpcomingOfExact(es, now, x);
    assert x in UpcomingOf(es, now) <==> x in multiset(UpcomingOf(es, now));
    assert x in es <==> x in multiset(es);
  }

  /** The row loop of bot.py:305-312: parse each row and keep it when it has not ended. */
  method SelectUpcoming(rows: seq<Row>, now: Moment) returns (upcoming: Option<seq<Entry>>)
    ensures upcoming.None? <==> ParseEntries(rows).None?
    ensures upcoming.Some? ==> upcoming.value == UpcomingOf(ParseEntries(rows).value, now)
  {
    var kept: seq<Entry> := [];
    for i := 0 to |rows|
      invariant ParseEntries(rows[..i]).Some?
      invariant kept == UpcomingOf(ParseEntries(rows[..i]).value, now)
    {
      var entry := ParseEntry(rows[i]);
      ParseEntriesStep(rows, i);
      if entry.None? {
        return None;
      }
      if IsUpcoming(entry.value, now) {
        kept := kept + [entry.value];
      }
    }
    assert rows[..|rows|] == rows;
    return Some(kept);
  }

  // ---------------------------------------------------------------- sorting

  /** The bookings' dates do not decrease. */
  predicate SortedByDate(s: seq<Entry>)
  {
    forall i, j :: 0 <= i < j < |s| ==> DateKey(s[i].date) <= DateKey(s[j].date)
  }

  /** Insert `x` after every entry whose date is not later than its own. */
  function InsertByDate(s: seq<Entry>, x: Entry): seq<Entry>
    decreases |s|
  {
    if s == [] || DateKey(s[|s| - 1].date) <= DateKey(x.date) then s + [x]
    else InsertByDate(s[..|s| - 1], x) + [s[|s| - 1]]
  }

  /** `list.sort(key=lambda x: x[0])` (bot.py:315): Python's sort is stable. */
  function SortByDate(es: seq<Entry>): seq<Entry>
    decreases |es|
  {
    if es == [] then [] else InsertByDate(SortByDate(es[..|es| - 1]), es[|es| - 1])
  }

  /** The entries of one date, in order. */
  function OnDate(s: seq<Entry>, key: int): seq<Entry>
    decreases |s|
  {
    if s == [] then []
    else OnDate(s[..|s| - 1], key) + (if DateKey(s[|s| - 1].date) == key then [s[|s| - 1]] else [])
  }

  lemma {:induction false} OnDateAppend(s: seq<Entry>, x: Entry, key: int)
    ensures OnDate(s + [x], key) == OnDate(s, key) + (if DateKey(x.date) == key then [x] else [])
  {
    assert (s + [x])[..|s|] == s;
  }

  /**
   * The filter keeps the entries of each date in table order: filtering and
   * then taking one date's entries is taking that date's entries and then
   * filtering them.
   */
  lemma {:induction false} UpcomingOfOnDate(es: seq<Entry>, now: Moment, key: int)
    ensures OnDate(UpcomingOf(es, now), key) == UpcomingOf(OnDate(es, key), now)
    decreases |es|
  {
    if es != [] {
      var init, last := es[..|es| - 1], es[|es| - 1];
      UpcomingOfOnDate(init, now, key);
      assert es == init + [last];
      if IsUpcoming(last, now) {
        OnDateAppend(UpcomingOf(init, now), last, key);
      } else {
        assert UpcomingOf(init, now) + [] == UpcomingOf(init, now);
      }
      if DateKey(last.date) == key {
        UpcomingOfAppend(OnDate(init, key), last, now);
      } else {
        assert OnDate(init, key) + [] == OnDate(init, key);
      }
    }
  }

  /** Inserting adds exactly `x`. */
  lemma {:induction false} InsertByDatePermutes(s: seq<Entry>, x: Entry)
    ensures multiset(InsertByDate(s, x)) == multiset(s) + multiset{x}
    decreases |s|
  {
    if !(s == [] || DateKey(s[|s| - 1].date) <= DateKey(x.date)) {
      var init, last := s[..|s| - 1], s[|s| - 1];
      assert s == init + [last];
      InsertByDatePermutes(init, x);
    }
  }

  /** Inserting into entries ordered by date keeps them ordered. */
  lemma {:induction false} InsertByDateSorted(s: seq<Entry>, x: Entry)
    requires SortedByDate(s)
    ensures SortedByDate(InsertByDate(s, x))
    decreases |s|
  {
    if s == [] || DateKey(s[|s| - 1].date) <= DateKey(x.date) {
      assert forall i :: 0 <= i < |s| ==> DateKey(s[i].date) <= DateKey(x.date);
    } else {
      var init, last := s[..|s| - 1], s[|s| - 1];
      assert SortedByDate(init);
      InsertByDateSorted(init, x);
      InsertByDateBounded(init, x, DateKey(last.date));
    }
  }

  /** Inserting an entry no later than a bound into entries no later than it keeps them all no later than it. */
  lemma InsertByDateBounded(s: seq<Entry>, x: Entry, bound: int)
    requires forall i :: 0 <= i < |s| ==> DateKey(s[i].date) <= bound
    requires DateKey(x.date) <= bound
    ensures forall i :: 0 <= i < |InsertByDate(s, x)| ==> DateKey(InsertByDate(s, x)[i].date) <= bound
  {
    InsertByDatePermutes(s, x);
    var r := InsertByDate(s, x);
    forall i | 0 <= i < |r| ensures DateKey(r[i].date) <= bound {
      assert r[i] in multiset(s) + multiset{x};
    }
  }

  /** Inserting puts `x` after the entries of its own date and moves no entry past another of its date. */
  lemma {:induction false} InsertByDateStable(s: seq<Entry>, x: Entry, key: int)
    ensures OnDate(InsertByDate(s, x), key) == OnDate(s, key) + (if DateKey(x.date) == key then [x] else [])
    decreases |s|
  {
    if s == [] || DateKey(s[|s| - 1].date) <= DateKey(x.date) {
      OnDateAppend(s, x, key);
    } else {
      var init, last := s[..|s| - 1], s[|s| - 1];
      assert s == init + [last];
      InsertByDateStable(init, x, key);
      OnDateAppend(InsertByDate(init, x), last, key);
      OnDateAppend(init, last, key);
    }
  }

  /**
   * The stable sort by date: the result is ordered by date, holds the same
   * entries, and keeps the entries of each date in their original order.
   */
  lemma {:induction false} SortByDateSpec(es: seq<Entry>)
    ensures SortedByDate(SortByDate(es))
    ensures multiset(SortByDate(es)) == multiset(es)
    ensures forall key :: OnDate(SortByDate(es), key) == OnDate(es, key)
    decreases |es|
  {
    if es != [] {
      var init, last := es[..|es| - 1], es[|es| - 1];
      SortByDateSpec(init);
      InsertByDateSorted(SortByDate(init), last);
      InsertByDatePermutes(SortByDate(init), last);
      assert es == init + [last];
      forall key ensures OnDate(SortByDate(es), key) == OnDate(es, key) {
        InsertByDateStable(SortByDate(init), last, key);
        OnDateAppend(init, last, key);
      }
    }
  }

  // ---------------------------------------------------------------- the reply

  const Heading := "Upcoming Bookings:\n\n"
  const NoUpcomingText := "There are no upcoming bookings."

  /** Every entry's date is a valid date. */
  predicate AllValid(es: seq<Entry>)
  {
    forall x :: x in es ==> ValidDate(x.date)
  }

  /** The line of one booking (bot.py:320-326). */
  function Line(e: Entry): string
    requires ValidDate(e.date)
  {
    DisplayDate(e.date) + " from " + Format(e.start) + " to " + Format(e.end) + " by @" + e.username + " - " + e.details + " \n\n"
  }

  /** The lines of the bookings, in order. */
  function Lines(es: seq<Entry>): string
    requires AllValid(es)
    decreases |es|
  {
    if es == [] then [] else Lines(es[..|es| - 1]) + Line(es[|es| - 1])
  }

  /** The text of the reply to /list for the sorted upcoming bookings (bot.py:292, 319-330). */
  function Response(es: seq<Entry>): string
    requires AllValid(es)
  {
    if es == [] then NoUpcomingText else Heading + Lines(es)
  }

  /** The reply is the "no upcoming bookings" text exactly when no booking is upcoming. */
  lemma ResponseEmptyIff(es: seq<Entry>)
    requires AllValid(es)
    ensures Response(es) == NoUpcomingText <==> es == []
  {
    if es != [] {
      assert Response(es)[0] == 'U' != NoUpcomingText[0];
    }
  }

  /** Parsed, kept and sorted entries all carry valid dates. */
  lemma ListedAreValid(rows: seq<Row>, now: Moment)
    requires ParseEntries(rows).Some?
    ensures AllValid(SortByDate(UpcomingOf(ParseEntries(rows).value, now)))
  {
    var es := ParseEntries(rows).value;
    var kept := UpcomingOf(es, now);
    SortByDateSpec(kept);
    forall x | x in SortByDate(kept) ensures ValidDate(x.date) {
      assert x in multiset(SortByDate(kept));
      UpcomingOfMember(es, now, x);
      var i :| 0 <= i < |es| && es[i] == x;
    }
  }

  /** Any prefix of entries with valid dates has valid dates. */
  lemma PrefixValid(es: seq<Entry>, i: nat)
    requires AllValid(es) && i <= |es|
    ensures AllValid(es[..i])
  {
    forall x | x in es[..i] ensures ValidDate(x.date) {
      var k :| 0 <= k < i && es[..i][k] == x;
      assert x == es[k] && es[k] in es;
    }
  }

  /** Lines grow by one line per booking. */
  lemma LinesStep(es: seq<Entry>, i: nat)
    requires AllValid(es) && i < |es|
    ensures AllValid(es[..i]) && AllValid(es[..i + 1]) && ValidDate(es[i].date)
    ensures Lines(es[..i + 1]) == Lines(es[..i]) + Line(es[i])
  {
    PrefixValid(es, i + 1);
    PrefixValid(es, i);
    assert es[i] in es;
    assert es[..i + 1][..i] == es[..i];
  }

  /** The line loop of bot.py:319-326: one line per booking, after the heading. */
  method WriteLines(es: seq<Entry>) returns (text: string)
    requires AllValid(es)
    ensures text == Heading + Lines(es)
  {
    var lines: string := [];
    for i := 0 to |es|
      invariant AllValid(es[..i]) && lines == Lines(es[..i])
    {
      LinesStep(es, i);
      lines := lines + Line(es[i]);
    }
    assert es[..|es|] == es;
    text := Heading + lines;
  }

  /** list_bookings (bot.py:290-332): None where a row makes Python raise ValueError. */
  method ListBookings(rows: seq<Row>, now: Moment) returns (response: Option<string>)
    ensures response.None? <==> ParseEntries(rows).None?
    ensures response.Some? ==>
              AllValid(SortByDate(UpcomingOf(ParseEntries(rows).value, now))) &&
              response.value == Response(SortByDate(UpcomingOf(ParseEntries(rows).value, now)))
  {
    var upcoming := SelectUpcoming(rows, now);
    if upcoming.None? {
      return None;
    }
    ListedAreValid(rows, now);
    var sorted := SortByDate(upcoming.value);
    var text := WriteLines(sorted);
    if sorted == [] {
      text := NoUpcomingText;
    }
    return Some(text);
  }
}
