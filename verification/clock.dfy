/**
 * Clock-of-day values and the sleep-duration formula shared by the create and update routes.
 * The server parses both times on the same nominal day (1 January 2000), takes the difference
 * in hours, and adds 24 when that difference is negative (the sleeper crossed midnight).
 */
module Clock {

  type Hour = h: int | 0 <= h < 24
  type Minute = m: int | 0 <= m < 60

  /** A time of day as entered in an HH:MM field. */
  datatype Time = Time(hour: Hour, minute: Minute)

  const MinutesPerDay: int := 1440

  /** Minutes elapsed since midnight. */
  function MinuteOfDay(t: Time): (m: int)
    ensures 0 <= m < MinutesPerDay
    ensures m / 60 == t.hour && m % 60 == t.minute
  {
    60 * t.hour + t.minute
  }

  /**
   * Hours slept between `sleep` and `wake`: the difference on a nominal day, plus 24 when it
   * is negative. Equal times give 0, never 24.
   */
  function Duration(sleep: Time, wake: Time): (h: real)
    ensures 0.0 <= h < 24.0
    ensures sleep == wake ==> h == 0.0
    ensures MinuteOfDay(sleep) <= MinuteOfDay(wake) ==> h * 60.0 == (MinuteOfDay(wake) - MinuteOfDay(sleep)) as real
    ensures MinuteOfDay(wake) < MinuteOfDay(sleep) ==> h * 60.0 == (MinuteOfDay(wake) + MinutesPerDay - MinuteOfDay(sleep)) as real
  {
    var hours := (MinuteOfDay(wake) - MinuteOfDay(sleep)) as real / 60.0;
    if hours < 0.0 then hours + 24.0 else hours
  }

  /** The duration is the wake-minus-sleep difference taken modulo one day, in hours. */
  lemma DurationIsModularDifference(sleep: Time, wake: Time)
    ensures Duration(sleep, wake) * 60.0 == ((MinuteOfDay(wake) - MinuteOfDay(sleep)) % MinutesPerDay) as real
  {
    var d := MinuteOfDay(wake) - MinuteOfDay(sleep);
    WrapWithinOneDay(d);
  }

  /** A difference of two minutes-of-day, taken modulo one day, is at most one day away. */
  lemma WrapWithinOneDay(d: int)
    requires -MinutesPerDay < d < MinutesPerDay
    ensures d % MinutesPerDay == if d < 0 then d + MinutesPerDay else d
  {
    var q, r := d / MinutesPerDay, d % MinutesPerDay;
    assert d == MinutesPerDay * q + r && 0 <= r < MinutesPerDay;
    if d < 0 {
      assert q == -1;
    } else {
      assert q == 0;
    }
  }

  /**
   * Round trip: starting from the sleep time and moving forward by the computed duration
   * lands on the wake time.
   */
  lemma DurationReachesWakeTime(sleep: Time, wake: Time)
    ensures (Duration(sleep, wake) * 60.0).Floor as real == Duration(sleep, wake) * 60.0
    ensures (MinuteOfDay(sleep) + (Duration(sleep, wake) * 60.0).Floor) % MinutesPerDay == MinuteOfDay(wake)
  {
    var s, w := MinuteOfDay(sleep), MinuteOfDay(wake);
    var d := if w < s then w + MinutesPerDay - s else w - s;
    assert Duration(sleep, wake) * 60.0 == d as real;
    assert (d as real).Floor == d;
    SameMinuteNextDay(w);
    if w < s {
      assert s + d == w + MinutesPerDay;
    } else {
      assert s + d == w;
    }
  }

  /** A minute of the day, and the same minute one day later, are that minute modulo a day. */
  lemma SameMinuteNextDay(w: int)
    requires 0 <= w < MinutesPerDay
    ensures w % MinutesPerDay == w
    ensures (w + MinutesPerDay) % MinutesPerDay == w
  {
    var q := (w + MinutesPerDay) / MinutesPerDay;
    assert w + MinutesPerDay == MinutesPerDay * q + (w + MinutesPerDay) % MinutesPerDay;
    assert q == 1;
  }

  /** The two worked examples: 22:00 to 07:00 is 9 hours, 23:45 to 00:15 is half an hour. */
  lemma DurationExamples()
    ensures Duration(Time(22, 0), Time(7, 0)) == 9.0
    ensures Duration(Time(23, 45), Time(0, 15)) == 0.5
    ensures Duration(Time(7, 0), Time(22, 0)) == 15.0
  {
  }
}
