/**
 * The bookings table (bot.py:24-33) as an in-memory sequence of rows in table
 * order, with the per-date query and the parsing of its time columns that
 * handle_date_selection and handle_start_time_selection do (bot.py:153-157,
 * 199-203).
 */
module Table {
  import opened Wrappers
  import opened Clock
  import opened Availability

  /** A row of the bookings table; every column is TEXT. */
  datatype Row = Row(date: string, startTime: string, endTime: string, username: string, details: string)

  /** `SELECT ... FROM bookings WHERE date = %s`: the rows of one date, in table order. */
  function RowsOn(rows: seq<Row>, date: string): (r: seq<Row>)
    ensures |r| <= |rows|
    ensures forall x :: x in r <==> x in rows && x.date == date
    decreases |rows|
  {
    if rows == [] then []
    else
      var rest := RowsOn(rows[1..], date);
      assert forall x :: x in rows <==> x == rows[0] || x in rows[1..];
      (if rows[0].date == date then [rows[0]] else []) + rest
  }

  /** The rows of a date keep their table order: RowsOn distributes over concatenation. */
  lemma {:induction false} RowsOnAppend(a: seq<Row>, b: seq<Row>, date: string)
    ensures RowsOn(a + b, date) == RowsOn(a, date) + RowsOn(b, date)
    decreases |a|
  {
    if a == [] {
      assert a + b == b;
    } else {
      assert (a + b)[1..] == a[1..] + b;
      RowsOnAppend(a[1..], b, date);
    }
  }

  /** The (start, end) pair of a row; None where a time does not parse and Python raises ValueError. */
  function SlotOf(row: Row): (b: Option<Booked>)
    ensures b.Some? <==> Parse(row.startTime).Some? && Parse(row.endTime).Some?
  {
    match (Parse(row.startTime), Parse(row.endTime))
      case (Some(start), Some(end)) => Some(Booked(start, end))
      case _ => None
  }

  /** A parsed pair is the one the row's columns spell in "%H%M". */
  lemma SlotOfSpells(row: Row)
    requires SlotOf(row).Some?
    ensures Format(SlotOf(row).value.start) == row.startTime && Format(SlotOf(row).value.end) == row.endTime
  {
    ParseInverse(row.startTime);
    ParseInverse(row.endTime);
  }

  /**
   * `[(strptime(start, "%H%M").time(), strptime(end, "%H%M").time()) for
   * start, end in rows]` (bot.py:157, 203): the pairs in table order, or None
   * where some time does not parse and Python raises ValueError.
   */
  function ParseSlots(rows: seq<Row>): (r: Option<seq<Booked>>)
    ensures r.Some? <==> forall i :: 0 <= i < |rows| ==> SlotOf(rows[i]).Some?
    ensures r.Some? ==> |r.value| == |rows| && forall i :: 0 <= i < |rows| ==> r.value[i] == SlotOf(rows[i]).value
    decreases |rows|
  {
    if rows == [] then Some([])
    else
      var rest := ParseSlots(rows[1..]);
      assert forall i :: 1 <= i < |rows| ==> rows[i] == rows[1..][i - 1];
      if SlotOf(rows[0]).Some? && rest.Some? then Some([SlotOf(rows[0]).value] + rest.value) else None
  }

  /** The booked slots of a date: its rows' parsed (start, end) pairs, in table order. */
  function BookedOn(rows: seq<Row>, date: string): Option<seq<Booked>>
  {
    ParseSlots(RowsOn(rows, date))
  }

  /** A row added for another date leaves a date's booked slots as they were. */
  lemma BookedOnOtherDate(rows: seq<Row>, row: Row, date: string)
    requires row.date != date
    ensures BookedOn(rows + [row], date) == BookedOn(rows, date)
  {
    RowsOnAppend(rows, [row], date);
    assert RowsOn([row], date) == [];
    assert RowsOn(rows, date) + [] == RowsOn(rows, date);
  }
}
