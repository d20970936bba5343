/**
 * The daylight tips of the weather widget. The widget looks up sunrise, sunset and day length
 * for a city; here those lookups are inputs: the local hour of sunrise and the day length in
 * whole seconds, as the sunrise-sunset service reports it.
 */
module Daylight {
  import opened Common

  /** What the widget holds once a lookup succeeded. */
  datatype SunData = SunData(sunriseHour: int, dayLengthSeconds: int)

  datatype Tip = EarlySunrise | LateSunrise | SunsetReminder | ShortDay | LongDay

  /** The day length in hours, `day_length / 3600`, exactly. */
  function DayLengthHours(seconds: int): (h: real)
    ensures h < 10.0 <==> seconds < 36000
    ensures h > 14.0 <==> seconds > 50400
  {
    seconds as real / 3600.0
  }

  /**
   * getRecommendations: nothing before a lookup; otherwise a sunrise tip, the sunset tip, and
   * a tip for short or long days.
   */
  function Tips(sun: Option<SunData>): (ts: seq<Tip>)
    ensures sun.None? <==> ts == []
    ensures sun.Some? ==> 2 <= |ts| <= 3
    ensures sun.Some? ==> (ts[0] == EarlySunrise <==> sun.value.sunriseHour <= 6)
    ensures sun.Some? ==> (ts[0] == LateSunrise <==> sun.value.sunriseHour > 6)
    ensures sun.Some? ==> ts[1] == SunsetReminder
    ensures ShortDay in ts <==> sun.Some? && sun.value.dayLengthSeconds < 36000
    ensures LongDay in ts <==> sun.Some? && sun.value.dayLengthSeconds > 50400
    ensures sun.Some? ==> (|ts| == 3 <==> !(36000 <= sun.value.dayLengthSeconds <= 50400))
    ensures !(ShortDay in ts && LongDay in ts)
  {
    match sun
    case None => []
    case Some(data) =>
      var dayLength := DayLengthHours(data.dayLengthSeconds);
      var sunrise := if data.sunriseHour <= 6 then EarlySunrise else LateSunrise;
      var season :=
        if dayLength < 10.0 then [ShortDay]
        else if dayLength > 14.0 then [LongDay]
        else [];
      [sunrise, SunsetReminder] + season
  }
}
