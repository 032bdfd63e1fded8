/**
 * Which start and end times the booking conversation offers for a date, given
 * the (start_time, end_time) pairs already booked on it: the loops of
 * handle_date_selection and handle_start_time_selection (bot.py:159-236).
 */
module Availability {
  import opened Wrappers
  import opened Clock

  /** Start times are offered on the hour from 09:00 to 17:00; end times run up to 18:00. */
  const FirstStartHour := 9
  const LastStartHour := 17
  const ClosingHour := 18

  /** One booked (start_time, end_time) pair of a date, parsed from the bookings table. */
  datatype Booked = Booked(start: Minute, end: Minute)

  /** The half-open intervals [a0, a1) and [b0, b1) share at least one instant. */
  predicate Intersects(a0: int, a1: int, b0: int, b1: int)
  {
    a0 < b1 && b0 < a1
  }

  predicate StrictlyIncreasing(s: seq<int>)
  {
    forall i, j :: 0 <= i < j < |s| ==> s[i] < s[j]
  }

  // ---------------------------------------------------------------- start times

  /** The three-clause test that rules the slot [t, next) out because of booking b (bot.py:167-169). */
  predicate Clashes(t: int, next: int, b: Booked)
  {
    b.start <= t < b.end || b.start < next <= b.end || t <= b.start < next
  }

  /** `is_available`: no booking clashes with the one-hour slot starting at t. */
  predicate SlotFree(t: int, booked: seq<Booked>)
  {
    forall i :: 0 <= i < |booked| ==> !Clashes(t, t + 60, booked[i])
  }

  /**
   * The three-clause test is exactly half-open intersection for a well-formed
   * booking; a booking with end <= start still rules out the slots it starts in.
   */
  lemma ClashesIsIntersection(t: int, b: Booked)
    ensures Clashes(t, t + 60, b) <==>
              Intersects(t, t + 60, b.start, b.end) || (b.end <= b.start && t <= b.start < t + 60)
  {
  }

  /** The start times kept for the hours FirstStartHour up to, not including, `hour`. */
  function StartsBefore(hour: int, booked: seq<Booked>): seq<int>
    requires FirstStartHour <= hour <= LastStartHour + 1
    decreases hour
  {
    if hour == FirstStartHour then []
    else
      var t := (hour - 1) * 60;
      StartsBefore(hour - 1, booked) + (if SlotFree(t, booked) then [t] else [])
  }

  /** The start times offered for a date with these bookings. */
  function StartMinutes(booked: seq<Booked>): (r: seq<int>)
    ensures AllTimes(r)
  {
    StartsBeforeIncreasing(LastStartHour + 1, booked);
    StartsBefore(LastStartHour + 1, booked)
  }

  /** Every element is a time of day. */
  predicate AllTimes(ts: seq<int>)
  {
    forall i :: 0 <= i < |ts| ==> 0 <= ts[i] < MinutesPerDay
  }

  /** The "%H%M" strings of a sequence of times, in the same order: the buttons' labels and data. */
  function FormatAll(ts: seq<int>): seq<string>
    requires AllTimes(ts)
  {
    seq(|ts|, i requires 0 <= i < |ts| => Format(ts[i]))
  }

  /**
   * A time's string is among the formatted times exactly when the time is
   * among the times; so the string test of bot.py:235 is a test on times.
   */
  lemma FormatAllMember(ts: seq<int>, t: Minute)
    requires AllTimes(ts)
    ensures Format(t) in FormatAll(ts) <==> t in ts
  {
    if Format(t) in FormatAll(ts) {
      var i :| 0 <= i < |ts| && FormatAll(ts)[i] == Format(t);
      FormatInjective(ts[i], t);
    }
    if t in ts {
      var i :| 0 <= i < |ts| && ts[i] == t;
      assert FormatAll(ts)[i] == Format(t);
    }
  }

  lemma {:induction false} StartsBeforeMember(hour: int, booked: seq<Booked>, t: int)
    requires FirstStartHour <= hour <= LastStartHour + 1
    ensures t in StartsBefore(hour, booked) <==>
              t % 60 == 0 && FirstStartHour * 60 <= t < hour * 60 && SlotFree(t, booked)
    decreases hour
  {
    if hour > FirstStartHour {
      var u := (hour - 1) * 60;
      StartsBeforeStep(hour, booked);
      StartsBeforeMember(hour - 1, booked, t);
      assert t in StartsBefore(hour, booked) <==> t in StartsBefore(hour - 1, booked) || (t == u && SlotFree(u, booked));
      if t % 60 == 0 && u <= t < hour * 60 {
        assert t / 60 == hour - 1;
      }
    }
  }

  lemma {:induction false} StartsBeforeIncreasing(hour: int, booked: seq<Booked>)
    requires FirstStartHour <= hour <= LastStartHour + 1
    ensures StrictlyIncreasing(StartsBefore(hour, booked))
    ensures forall i :: 0 <= i < |StartsBefore(hour, booked)| ==>
              FirstStartHour * 60 <= StartsBefore(hour, booked)[i] < hour * 60
    decreases hour
  {
    if hour > FirstStartHour {
      StartsBeforeStep(hour, booked);
      StartsBeforeIncreasing(hour - 1, booked);
      var init := StartsBefore(hour - 1, booked);
      var u := (hour - 1) * 60;
      assert forall i :: 0 <= i < |init| ==> init[i] < u;
    }
  }

  /** One step of the hourly start-time loop. */
  lemma StartsBeforeStep(hour: int, booked: seq<Booked>)
    requires FirstStartHour < hour <= LastStartHour + 1
    ensures StartsBefore(hour, booked) ==
              StartsBefore(hour - 1, booked) + (if SlotFree((hour - 1) * 60, booked) then [(hour - 1) * 60] else [])
  {
  }

  /**
   * An hour is offered as a start time exactly when it is one of 09:00..17:00
   * and its one-hour slot passes the three-clause test against every booking.
   */
  lemma StartOffered(booked: seq<Booked>, t: int)
    ensures t in StartMinutes(booked) <==>
              t % 60 == 0 && FirstStartHour * 60 <= t <= LastStartHour * 60 && SlotFree(t, booked)
  {
    StartsBeforeMember(LastStartHour + 1, booked, t);
  }

  /**
   * With well-formed bookings, an hour is offered exactly when its slot
   * [t, t+60) intersects no booked [start, end).
   */
  lemma StartOfferedIffNoOverlap(booked: seq<Booked>, t: int)
    requires forall i :: 0 <= i < |booked| ==> booked[i].start < booked[i].end
    ensures t in StartMinutes(booked) <==>
              t % 60 == 0 && FirstStartHour * 60 <= t <= LastStartHour * 60 &&
              forall i :: 0 <= i < |booked| ==> !Intersects(t, t + 60, booked[i].start, booked[i].end)
  {
    StartOffered(booked, t);
    forall i | 0 <= i < |booked| {
      ClashesIsIntersection(t, booked[i]);
    }
  }

  /** The offered start times ascend strictly and lie within 09:00..17:00. */
  lemma StartMinutesAscending(booked: seq<Booked>)
    ensures StrictlyIncreasing(StartMinutes(booked))
    ensures forall i :: 0 <= i < |StartMinutes(booked)| ==>
              FirstStartHour * 60 <= StartMinutes(booked)[i] <= LastStartHour * 60
  {
    StartsBeforeIncreasing(LastStartHour + 1, booked);
    forall i | 0 <= i < |StartMinutes(booked)| ensures StartMinutes(booked)[i] <= LastStartHour * 60 {
      StartOffered(booked, StartMinutes(booked)[i]);
    }
  }

  lemma {:induction false} StartsBeforeNothingBooked(hour: int)
    requires FirstStartHour <= hour <= LastStartHour + 1
    ensures StartsBefore(hour, []) == seq(hour - FirstStartHour, k => (FirstStartHour + k) * 60)
    decreases hour
  {
    if hour > FirstStartHour {
      StartsBeforeStep(hour, []);
      StartsBeforeNothingBooked(hour - 1);
    }
  }

  /** With nothing booked, all nine hours 09:00..17:00 are offered. */
  lemma NoBookingsAllNine()
    ensures StartMinutes([]) == [540, 600, 660, 720, 780, 840, 900, 960, 1020]
  {
    StartsBeforeNothingBooked(LastStartHour + 1);
  }

  /** The start-time loop of handle_date_selection (bot.py:159-173). */
  method AvailableStartTimes(booked: seq<Booked>) returns (timeSlots: seq<int>)
    ensures timeSlots == StartMinutes(booked)
  {
    timeSlots := [];
    for hour := FirstStartHour to LastStartHour + 1
      invariant timeSlots == StartsBefore(hour, booked)
    {
      var currentTime: Minute := hour * 60;
      var nextTime := AddHour(currentTime);
      var isAvailable := forall i :: 0 <= i < |booked| ==> !Clashes(currentTime, nextTime, booked[i]);
      if isAvailable {
        timeSlots := timeSlots + [currentTime];
      }
    }
  }

  // ---------------------------------------------------------------- end times

  /**
   * `next_booking_start`: the start of the FIRST booking, in the order the
   * table returned them, that starts after `start` (bot.py:206-210).
   */
  function NextBookingStart(start: Minute, booked: seq<Booked>): (r: Option<Minute>)
    ensures r.None? <==> forall i :: 0 <= i < |booked| ==> booked[i].start <= start
    ensures r.Some? ==>
              start < r.value &&
              exists k :: 0 <= k < |booked| && booked[k].start == r.value &&
                          forall j :: 0 <= j < k ==> booked[j].start <= start
    decreases |booked|
  {
    if booked == [] then None
    else if booked[0].start > start then Some(booked[0].start)
    else
      var r := NextBookingStart(start, booked[1..]);
      assert r.Some? ==> exists k :: 0 <= k < |booked| && booked[k].start == r.value &&
                          forall j :: 0 <= j < k ==> booked[j].start <= start
      by {
        if r.Some? {
          var k :| 0 <= k < |booked[1..]| && booked[1..][k].start == r.value &&
                   forall j :: 0 <= j < k ==> booked[1..][j].start <= start;
          assert forall j :: 0 <= j < k + 1 ==> booked[j].start <= start by {
            forall j | 0 <= j < k + 1 ensures booked[j].start <= start {
              if j > 0 { assert booked[j] == booked[1..][j - 1]; }
            }
          }
        }
      }
      r
  }

  /** The early-exit scan of bot.py:206-210. */
  method FindNextBookingStart(start: Minute, booked: seq<Booked>) returns (next: Option<Minute>)
    ensures next == NextBookingStart(start, booked)
  {
    next := None;
    for i := 0 to |booked|
      invariant next.None?
      invariant NextBookingStart(start, booked) == NextBookingStart(start, booked[i..])
    {
      if booked[i].start > start {
        next := Some(booked[i].start);
        break;
      }
      assert booked[i..][1..] == booked[i + 1..];
    }
  }

  /**
   * `end_hour * 60`: the last end time the hourly walk may reach, 18:00 or the
   * hour of the next booking when that is earlier (bot.py:213-215).
   */
  function EndLimit(next: Option<Minute>): (limit: int)
    ensures 0 <= limit <= ClosingHour * 60 && limit % 60 == 0
    ensures next.Some? ==> limit <= next.value
    ensures next.None? ==> limit == ClosingHour * 60
    ensures next.Some? ==> limit == ClosingHour * 60 || limit + 60 > next.value
  {
    if next.Some? then Min(ClosingHour, Hour(next.value)) * 60 else ClosingHour * 60
  }

  /** No booking has t strictly inside it (bot.py:225-228). */
  predicate NotInside(t: int, booked: seq<Booked>)
  {
    forall i :: 0 <= i < |booked| ==> !(booked[i].start < t < booked[i].end)
  }

  /** The end times the hourly walk of bot.py:217-232 keeps from `current` on. */
  function EndWalk(current: int, limit: int, next: Option<Minute>, booked: seq<Booked>): seq<int>
    requires 0 <= current && limit <= ClosingHour * 60
    decreases limit + 60 - current
  {
    if current > limit || (next.Some? && current > next.value) then []
    else (if NotInside(current, booked) then [current] else []) + EndWalk(current + 60, limit, next, booked)
  }

  /**
   * The end times offered after `start` when `next` is taken as the next
   * booking: the walk from start+1h, then `next` itself if the walk missed it
   * (bot.py:212-236).
   */
  function OfferedEnds(start: Minute, next: Option<Minute>, booked: seq<Booked>): seq<int>
  {
    var walk := EndWalk(AddHour(start), EndLimit(next), next, booked);
    if next.Some? && next.value !in walk then walk + [next.value] else walk
  }

  /** The end times handle_start_time_selection offers. */
  function EndMinutes(start: Minute, booked: seq<Booked>): (r: seq<int>)
    ensures AllTimes(r)
  {
    EndsInRange(start, NextBookingStart(start, booked), booked);
    OfferedEnds(start, NextBookingStart(start, booked), booked)
  }

  lemma {:induction false} EndWalkMember(current: int, limit: int, next: Option<Minute>, booked: seq<Booked>, e: int)
    requires 0 <= current && limit <= ClosingHour * 60
    ensures e in EndWalk(current, limit, next, booked) <==>
              current <= e <= limit && (e - current) % 60 == 0 &&
              (next.Some? ==> e <= next.value) && NotInside(e, booked)
    decreases limit + 60 - current
  {
    if !(current > limit || (next.Some? && current > next.value)) {
      EndWalkStep(current, limit, next, booked);
      EndWalkMember(current + 60, limit, next, booked, e);
      assert (e - current) % 60 == (e - (current + 60)) % 60;
    }
  }

  lemma EndsInRange(start: Minute, next: Option<Minute>, booked: seq<Booked>)
    ensures AllTimes(OfferedEnds(start, next, booked))
  {
    var walk := EndWalk(AddHour(start), EndLimit(next), next, booked);
    forall i | 0 <= i < |walk| ensures 0 <= walk[i] <= ClosingHour * 60 {
      EndWalkMember(AddHour(start), EndLimit(next), next, booked, walk[i]);
    }
  }

  lemma {:induction false} EndWalkIncreasing(current: int, limit: int, next: Option<Minute>, booked: seq<Booked>)
    requires 0 <= current && limit <= ClosingHour * 60
    ensures StrictlyIncreasing(EndWalk(current, limit, next, booked))
    decreases limit + 60 - current
  {
    if !(current > limit || (next.Some? && current > next.value)) {
      EndWalkIncreasing(current + 60, limit, next, booked);
      var rest := EndWalk(current + 60, limit, next, booked);
      forall i | 0 <= i < |rest| ensures current < rest[i] {
        EndWalkMember(current + 60, limit, next, booked, rest[i]);
      }
    }
  }

  /**
   * The offered end times ascend strictly, so none is offered twice; when there
   * is a next booking, its start is offered, as the last and largest end time.
   */
  lemma EndsAscending(start: Minute, next: Option<Minute>, booked: seq<Booked>)
    ensures StrictlyIncreasing(OfferedEnds(start, next, booked))
    ensures next.Some? ==>
              |OfferedEnds(start, next, booked)| > 0 &&
              OfferedEnds(start, next, booked)[|OfferedEnds(start, next, booked)| - 1] == next.value
  {
    var first, limit := AddHour(start), EndLimit(next);
    EndWalkIncreasing(first, limit, next, booked);
    if next.Some? {
      var walk := EndWalk(first, limit, next, booked);
      forall i | 0 <= i < |walk| ensures walk[i] <= next.value {
        EndWalkMember(first, limit, next, booked, walk[i]);
      }
      if next.value in walk {
        LargestIsLast(walk, next.value);
      }
    }
  }

  /** In a strictly increasing sequence, an element no smaller than every element is the last one. */
  lemma LargestIsLast(s: seq<int>, x: int)
    requires StrictlyIncreasing(s) && x in s
    requires forall i :: 0 <= i < |s| ==> s[i] <= x
    ensures s[|s| - 1] == x
  {
    var k :| 0 <= k < |s| && s[k] == x;
    assert forall i :: 0 <= i < |s| - 1 ==> s[i] < s[|s| - 1];
  }

  /**
   * Every offered end time other than the next booking's start is one of
   * start+1h, start+2h, ... up to the limit and lies strictly inside no
   * booking; every such hour is offered.
   */
  lemma EndOffered(start: Minute, next: Option<Minute>, booked: seq<Booked>, e: int)
    requires start + 60 < MinutesPerDay
    ensures e in OfferedEnds(start, next, booked) <==>
              (next.Some? && e == next.value) ||
              (start + 60 <= e <= EndLimit(next) && (e - start) % 60 == 0 && NotInside(e, booked))
  {
    EndWalkMember(start + 60, EndLimit(next), next, booked, e);
  }

  /**
   * Bounds of the offered end times: after the start; at most 18:00 unless it
   * is the next booking's start; never beyond the next booking's start.
   */
  lemma EndBounds(start: Minute, next: Option<Minute>, booked: seq<Booked>, e: int)
    requires start + 60 < MinutesPerDay
    requires next.Some? ==> start < next.value
    requires e in OfferedEnds(start, next, booked)
    ensures start < e
    ensures next.Some? ==> e <= next.value
    ensures e <= ClosingHour * 60 || (next.Some? && e == next.value)
    ensures !(next.Some? && e == next.value) ==> start + 60 <= e && NotInside(e, booked)
  {
    EndOffered(start, next, booked, e);
  }

  /** One step of the hourly walk. */
  lemma EndWalkStep(current: int, limit: int, next: Option<Minute>, booked: seq<Booked>)
    requires 0 <= current <= limit <= ClosingHour * 60 && !(next.Some? && current > next.value)
    ensures EndWalk(current, limit, next, booked) ==
              (if NotInside(current, booked) then [current] else []) + EndWalk(current + 60, limit, next, booked)
  {
  }

  /**
   * The hourly walk of bot.py:217-232: from `currentTime` up to `endHour`:00,
   * keeping every time that lies strictly inside no booking and stopping past
   * the next booking's start.
   */
  method WalkEndTimes(currentTime: Minute, endHour: int, next: Option<Minute>, booked: seq<Booked>)
    returns (timeSlots: seq<int>)
    requires endHour <= ClosingHour
    ensures timeSlots == EndWalk(currentTime, endHour * 60, next, booked)
  {
    timeSlots := [];
    var current := currentTime;
    while current <= endHour * 60
      invariant timeSlots + EndWalk(current, endHour * 60, next, booked) == EndWalk(currentTime, endHour * 60, next, booked)
      decreases endHour * 60 + 60 - current
    {
      if next.Some? && current > next.value {
        assert EndWalk(current, endHour * 60, next, booked) == [];
        assert timeSlots + [] == timeSlots;
        break;
      }
      EndWalkStep(current, endHour * 60, next, booked);
      ghost var rest := EndWalk(current + 60, endHour * 60, next, booked);
      if NotInside(current, booked) {
        assert timeSlots + ([current] + rest) == (timeSlots + [current]) + rest;
        timeSlots := timeSlots + [current];
      } else {
        assert [] + rest == rest;
      }
      current := AddHour(current);
    }
  }

  /**
   * The end times offered after `start` once `next` has been chosen as the
   * next booking's start (bot.py:212-236).
   */
  method EndTimesFor(start: Minute, next: Option<Minute>, booked: seq<Booked>) returns (timeSlots: seq<int>)
    ensures timeSlots == OfferedEnds(start, next, booked)
  {
    var endHour := ClosingHour;
    if next.Some? {
      endHour := Min(endHour, Hour(next.value));
    }
    assert endHour * 60 == EndLimit(next);
    timeSlots := WalkEndTimes(AddHour(start), endHour, next, booked);
    if next.Some? && next.value !in timeSlots {
      timeSlots := timeSlots + [next.value];
    }
  }

  /** The end-time computation of handle_start_time_selection as written (bot.py:205-236). */
  method AvailableEndTimes(start: Minute, booked: seq<Booked>) returns (timeSlots: seq<int>)
    ensures timeSlots == EndMinutes(start, booked)
  {
    var next := FindNextBookingStart(start, booked);
    timeSlots := EndTimesFor(start, next, booked);
  }

  /**
   * An offered start followed by one of its offered end times books at least
   * an hour: a booking that starts after the start cannot start inside its
   * free first hour.
   */
  lemma OfferedBookingLastsAnHour(booked: seq<Booked>, t: Minute, e: int)
    requires t in StartMinutes(booked)
    requires e in EndMinutes(t, booked)
    ensures t + 60 <= e
  {
    StartOffered(booked, t);
    var next := NextBookingStart(t, booked);
    EndBounds(t, next, booked, e);
    if next.Some? && e == next.value {
      var k :| 0 <= k < |booked| && booked[k].start == next.value &&
               forall j :: 0 <= j < k ==> booked[j].start <= t;
      assert !Clashes(t, t + 60, booked[k]);
    }
  }

  // ---------------------------------------------------------------- double booking

  /** The bookings are listed in order of their start times. */
  predicate SortedByStart(booked: seq<Booked>)
  {
    forall i, j :: 0 <= i < j < |booked| ==> booked[i].start <= booked[j].start
  }

  /** `next` is the earliest start, among all the bookings, that is later than `start`. */
  predicate IsEarliestLater(start: int, next: Option<Minute>, booked: seq<Booked>)
  {
    (next.None? <==> forall i :: 0 <= i < |booked| ==> booked[i].start <= start) &&
    (next.Some? ==>
       start < next.value &&
       (exists k :: 0 <= k < |booked| && booked[k].start == next.value) &&
       forall i :: 0 <= i < |booked| && start < booked[i].start ==> next.value <= booked[i].start)
  }

  /** At most one value is the earliest later start. */
  lemma EarliestLaterUnique(start: int, a: Option<Minute>, b: Option<Minute>, booked: seq<Booked>)
    requires IsEarliestLater(start, a, booked) && IsEarliestLater(start, b, booked)
    ensures a == b
  {
    if a.Some? && b.Some? {
      var k :| 0 <= k < |booked| && booked[k].start == a.value;
      var l :| 0 <= l < |booked| && booked[l].start == b.value;
      assert a.value <= booked[l].start && b.value <= booked[k].start;
    }
  }

  /**
   * The evidently intended next booking: the earliest later start whatever
   * the order of the rows, computed over the first |booked| rows.
   */
  function EarliestStartAfter(start: Minute, booked: seq<Booked>): (r: Option<Minute>)
    ensures IsEarliestLater(start, r, booked)
    decreases |booked|
  {
    if booked == [] then None
    else
      var init := booked[..|booked| - 1];
      var b := booked[|booked| - 1].start;
      var rest := EarliestStartAfter(start, init);
      assert forall i :: 0 <= i < |init| ==> init[i] == booked[i];
      if start < b && (rest.None? || b < rest.value) then Some(b) else rest
  }

  /** A scan for the smallest later start, the corrected form of bot.py:206-210. */
  method FindEarliestStartAfter(start: Minute, booked: seq<Booked>) returns (next: Option<Minute>)
    ensures next == EarliestStartAfter(start, booked)
  {
    next := None;
    for i := 0 to |booked|
      invariant next == EarliestStartAfter(start, booked[..i])
    {
      assert booked[..i + 1][..i] == booked[..i];
      if booked[i].start > start && (next.None? || booked[i].start < next.value) {
        next := Some(booked[i].start);
      }
    }
    assert booked[..|booked|] == booked;
  }

  /**
   * The first later row is the earliest later start when the rows are listed
   * by start time.
   */
  lemma SortedNextIsEarliest(start: Minute, booked: seq<Booked>)
    requires SortedByStart(booked)
    ensures NextBookingStart(start, booked) == EarliestStartAfter(start, booked)
  {
    var next := NextBookingStart(start, booked);
    if next.Some? {
      var k :| 0 <= k < |booked| && booked[k].start == next.value &&
               forall j :: 0 <= j < k ==> booked[j].start <= start;
      assert forall i :: 0 <= i < |booked| && start < booked[i].start ==> next.value <= booked[i].start;
    }
    assert IsEarliestLater(start, next, booked);
    EarliestLaterUnique(start, next, EarliestStartAfter(start, booked), booked);
  }

  /**
   * Capping the end times at the earliest later start keeps the new booking
   * [start, e) clear of every booking, for a start the start-time test let
   * through.
   */
  lemma EarliestCapPreventsOverlap(start: Minute, next: Option<Minute>, booked: seq<Booked>, e: int)
    requires start + 60 < MinutesPerDay && SlotFree(start, booked)
    requires IsEarliestLater(start, next, booked)
    requires e in OfferedEnds(start, next, booked)
    ensures forall i :: 0 <= i < |booked| ==> !Intersects(start, e, booked[i].start, booked[i].end)
  {
    EndBounds(start, next, booked, e);
    forall i | 0 <= i < |booked| ensures !Intersects(start, e, booked[i].start, booked[i].end) {
      assert !Clashes(start, start + 60, booked[i]);
    }
  }

  /** The end times offered when the next booking is the earliest later start. */
  function CorrectedEndMinutes(start: Minute, booked: seq<Booked>): (r: seq<int>)
    ensures AllTimes(r)
  {
    EndsInRange(start, EarliestStartAfter(start, booked), booked);
    OfferedEnds(start, EarliestStartAfter(start, booked), booked)
  }

  /** handle_start_time_selection's end times with the next booking found by its smallest start. */
  method AvailableEndTimesCorrected(start: Minute, booked: seq<Booked>) returns (timeSlots: seq<int>)
    ensures timeSlots == CorrectedEndMinutes(start, booked)
  {
    var next := FindEarliestStartAfter(start, booked);
    timeSlots := EndTimesFor(start, next, booked);
  }

  /**
   * With the corrected next booking, an offered start followed by an offered
   * end never overlaps an existing booking, whatever the order of the rows.
   */
  lemma CorrectedEndTimesNeverOverlap(start: Minute, booked: seq<Booked>, e: int)
    requires start in StartMinutes(booked)
    requires e in CorrectedEndMinutes(start, booked)
    ensures forall i :: 0 <= i < |booked| ==> !Intersects(start, e, booked[i].start, booked[i].end)
  {
    StartOffered(booked, start);
    EarliestCapPreventsOverlap(start, EarliestStartAfter(start, booked), booked, e);
  }

  /** On rows listed by start time, the corrected end times are those of the code as written. */
  lemma CorrectedAgreesWhenSorted(start: Minute, booked: seq<Booked>)
    requires SortedByStart(booked)
    ensures CorrectedEndMinutes(start, booked) == EndMinutes(start, booked)
  {
    SortedNextIsEarliest(start, booked);
  }

  /** The code as written never double-books when the rows come listed by start time. */
  lemma NoDoubleBookingWhenSorted(start: Minute, booked: seq<Booked>, e: int)
    requires SortedByStart(booked)
    requires start in StartMinutes(booked)
    requires e in EndMinutes(start, booked)
    ensures forall i :: 0 <= i < |booked| ==> !Intersects(start, e, booked[i].start, booked[i].end)
  {
    CorrectedAgreesWhenSorted(start, booked);
    CorrectedEndTimesNeverOverlap(start, booked, e);
  }

  /**
   * The code as written can double-book: with 13:00-14:00 listed before
   * 11:00-12:00, 10:00 is offered as a start, the next booking is taken to be
   * 13:00, and 12:00 is offered as an end, so 10:00-12:00 overlaps 11:00-12:00.
   */
  lemma UnsortedTableAllowsDoubleBooking()
    ensures var booked := [Booked(780, 840), Booked(660, 720)];
            600 in StartMinutes(booked) && 720 in EndMinutes(600, booked) &&
            Intersects(600, 720, booked[1].start, booked[1].end)
  {
    var booked := [Booked(780, 840), Booked(660, 720)];
    assert !Clashes(600, 660, booked[0]) && !Clashes(600, 660, booked[1]);
    assert SlotFree(600, booked);
    StartOffered(booked, 600);
    var next := NextBookingStart(600, booked);
    assert next == Some(780);
    assert EndLimit(next) == 780;
    assert NotInside(720, booked);
    EndOffered(600, next, booked, 720);
  }
}
