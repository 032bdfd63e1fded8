/**
 * Wall-clock times of the bookings table. A `datetime.time` on the hour-minute
 * grid is a number of minutes since midnight; TIME_FORMAT "%H%M" writes it as
 * four digits (bot.py:38).
 */
module Clock {
  import opened Wrappers
  import opened Text

  const MinutesPerDay := 1440

  /** A time of day, in minutes since midnight. */
  type Minute = m: int | 0 <= m < 1440

  /** `t.strftime("%H%M")` */
  function Format(t: Minute): (s: string)
    ensures |s| == 4 && AllDigits(s)
  {
    Pad2(t / 60) + Pad2(t % 60)
  }

  /** `datetime.strptime(s, "%H%M").time()` on four-digit input; None where Python raises ValueError. */
  function Parse(s: string): Option<Minute>
  {
    if |s| == 4 && AllDigits(s) && DigitsValue(s[..2]) < 24 && DigitsValue(s[2..]) < 60 then
      Some(DigitsValue(s[..2]) * 60 + DigitsValue(s[2..]))
    else
      None
  }

  /** A string that parses is the "%H%M" form of the time it parses to. */
  lemma ParseInverse(s: string)
    requires Parse(s).Some?
    ensures Format(Parse(s).value) == s
  {
    var h, m := DigitsValue(s[..2]), DigitsValue(s[2..]);
    var t := Parse(s).value;
    assert t == h * 60 + m;
    HourAndMinute(h, m);
    assert Format(t) == Pad2(h) + Pad2(m);
    TwoDigits(s[..2]);
    TwoDigits(s[2..]);
    assert s == s[..2] + s[2..];
  }

  lemma HourAndMinute(h: nat, m: nat)
    requires m < 60
    ensures (h * 60 + m) / 60 == h && (h * 60 + m) % 60 == m
  {
  }

  /** Reading back a formatted time gives the time. */
  lemma ParseFormat(t: Minute)
    ensures Parse(Format(t)) == Some(t)
  {
    var s := Format(t);
    assert s[..2] == Pad2(t / 60) && s[2..] == Pad2(t % 60);
  }

  /** Distinct times have distinct "%H%M" strings. */
  lemma FormatInjective(a: Minute, b: Minute)
    ensures Format(a) == Format(b) <==> a == b
  {
    if Format(a) == Format(b) {
      ParseFormat(a);
      ParseFormat(b);
    }
  }

  /**
   * `(datetime.combine(day, t) + timedelta(hours=1)).time()`: one hour later,
   * wrapping past midnight.
   */
  function AddHour(t: Minute): (r: Minute)
    ensures t + 60 < MinutesPerDay ==> r == t + 60
    ensures t + 60 >= MinutesPerDay ==> r == t + 60 - MinutesPerDay
  {
    (t + 60) % MinutesPerDay
  }

  /** `t.hour` */
  function Hour(t: Minute): (h: nat)
    ensures h < 24 && h * 60 <= t < h * 60 + 60
  {
    t / 60
  }
}
