/**
 * The per-record recommendations shown under each entry of the sleep list, and the quality
 * badge colour and emoji. Messages are identified by the rule that fired and the severity
 * the list styles them with; their text and translations are presentation only.
 */
module Advice {
  import opened Common
  import opened Clock
  import opened Records

  datatype Severity = Success | Info | Warning

  /** The three independent rule families, in the order the list evaluates them. */
  datatype Family = DurationFamily | QualityFamily | BedtimeFamily
  {
    /** Where the family's message sits in the list. */
    function Position(): nat
    {
      match this
      case DurationFamily => 0
      case QualityFamily => 1
      case BedtimeFamily => 2
    }
  }

  datatype Rule =
    // duration bands
    | TooShort | Borderline | Ideal | Long
    // quality lookup
    | PoorQuality | FairQuality | ExcellentQuality
    // bedtime bands
    | OptimalBedtime | EarlyBedtime | PastMidnight | VeryLateBedtime | UnusualBedtime
  {
    function Family(): Family
    {
      if TooShort? || Borderline? || Ideal? || Long? then DurationFamily
      else if PoorQuality? || FairQuality? || ExcellentQuality? then QualityFamily
      else BedtimeFamily
    }
  }

  datatype Message = Message(rule: Rule, severity: Severity)

  /** The severity each rule is shown with. */
  function SeverityOf(rule: Rule): Severity
  {
    match rule
    case TooShort => Warning
    case Borderline => Info
    case Ideal => Success
    case Long => Info
    case PoorQuality => Warning
    case FairQuality => Info
    case ExcellentQuality => Success
    case OptimalBedtime => Success
    case EarlyBedtime => Info
    case PastMidnight => Warning
    case VeryLateBedtime => Warning
    case UnusualBedtime => Info
  }

  /** Duration family: exactly one message, by band; 6 is borderline, 7 and 9 are ideal. */
  function DurationMessage(hours: real): (m: Message)
    ensures m.rule.Family() == DurationFamily
    ensures m.rule == TooShort <==> hours < 6.0
    ensures m.rule == Borderline <==> 6.0 <= hours < 7.0
    ensures m.rule == Ideal <==> 7.0 <= hours <= 9.0
    ensures m.rule == Long <==> 9.0 < hours
    ensures m.severity == SeverityOf(m.rule)
  {
    if hours < 6.0 then Message(TooShort, Warning)
    else if hours >= 6.0 && hours < 7.0 then Message(Borderline, Info)
    else if hours >= 7.0 && hours <= 9.0 then Message(Ideal, Success)
    else Message(Long, Info)
  }

  /** Quality family: a message for poor, fair and excellent; none for good or anything else. */
  function QualityMessage(q: Quality): (m: Option<Message>)
    ensures m.None? <==> (q == Good || q == Unrated)
    ensures m.Some? ==> m.value.rule.Family() == QualityFamily && m.value.severity == SeverityOf(m.value.rule)
    ensures m == Some(Message(PoorQuality, Warning)) <==> q == Poor
    ensures m == Some(Message(FairQuality, Info)) <==> q == Fair
    ensures m == Some(Message(ExcellentQuality, Success)) <==> q == Excellent
  {
    match q
    case Poor => Some(Message(PoorQuality, Warning))
    case Fair => Some(Message(FairQuality, Info))
    case Excellent => Some(Message(ExcellentQuality, Success))
    case _ => None
  }

  /** The bedtime bands as a table over the hour alone: 21-23, 19-20, 0-1, 2-5 and 6-18. */
  function BedtimeBand(hour: Hour): Rule
  {
    if hour < 2 then PastMidnight
    else if hour < 6 then VeryLateBedtime
    else if hour < 19 then UnusualBedtime
    else if hour < 21 then EarlyBedtime
    else OptimalBedtime
  }

  /**
   * Bedtime family, over the hour and minute parsed from the sleep time, with the branches in
   * the order the list tests them. The third branch's `hour == 23 && minute > 30` case is
   * never reached, because the first branch already takes every hour from 21 to 23.
   */
  function BedtimeMessage(hour: int, minute: int): (m: Option<Message>)
    ensures m.Some? <==> 0 <= hour < 24
    ensures m.Some? ==> m.value.rule.Family() == BedtimeFamily && m.value.severity == SeverityOf(m.value.rule)
    ensures 0 <= hour < 24 ==> m.value.rule == BedtimeBand(hour)
  {
    if hour >= 21 && hour <= 23 then Some(Message(OptimalBedtime, Success))
    else if hour >= 19 && hour < 21 then Some(Message(EarlyBedtime, Info))
    else if (hour >= 0 && hour < 2) || (hour == 23 && minute > 30) then Some(Message(PastMidnight, Warning))
    else if hour >= 2 && hour < 6 then Some(Message(VeryLateBedtime, Warning))
    else if hour >= 6 && hour < 19 then Some(Message(UnusualBedtime, Info))
    else None
  }

  /** 23:31 to 23:59 are classed as optimal, not as past midnight. */
  lemma LateElevenIsOptimal(minute: int)
    ensures BedtimeMessage(23, minute) == Some(Message(OptimalBedtime, Success))
    ensures minute > 30 ==> BedtimeMessage(23, minute).value.rule != PastMidnight
  {
  }

  /** getPersonalizedRecommendations: duration, then quality if any, then bedtime. */
  function PersonalRecommendations(r: Record): (ms: seq<Message>)
    ensures 2 <= |ms| <= 3
    ensures |ms| == 3 <==> r.quality in {Poor, Fair, Excellent}
    ensures ms[0] == DurationMessage(r.hours)
    ensures ms[|ms| - 1] == Message(BedtimeBand(r.sleep.hour), SeverityOf(BedtimeBand(r.sleep.hour)))
    ensures |ms| == 3 ==> Some(ms[1]) == QualityMessage(r.quality)
    ensures forall i :: 0 <= i < |ms| ==> ms[i].severity == SeverityOf(ms[i].rule)
    ensures forall i, j :: 0 <= i < j < |ms| ==> ms[i].rule.Family().Position() < ms[j].rule.Family().Position()
  {
    var duration := [DurationMessage(r.hours)];
    var quality := match QualityMessage(r.quality) case Some(m) => [m] case None => [];
    var bedtime := match BedtimeMessage(r.sleep.hour, r.sleep.minute) case Some(m) => [m] case None => [];
    duration + quality + bedtime
  }

  /** getQualityColor: unknown or absent quality falls back to grey. */
  function QualityColor(q: Quality): (c: string)
    ensures c == "#999" <==> q == Unrated
    ensures q == Excellent ==> c == "#28a745"
  {
    match q
    case Excellent => "#28a745"
    case Good => "#4A90E2"
    case Fair => "#ffc107"
    case Poor => "#dc3545"
    case Unrated => "#999"
  }

  /** getQualityEmoji: unknown or absent quality falls back to the sleeping face. */
  function QualityEmoji(q: Quality): (e: string)
    ensures e == "\U{1F634}" <==> (q == Excellent || q == Unrated)
  {
    match q
    case Excellent => "\U{1F634}"
    case Good => "\U{1F60A}"
    case Fair => "\U{1F610}"
    case Poor => "\U{1F62B}"
    case Unrated => "\U{1F634}"
  }

  /** The worked example: 23:45 to 00:15 is half an hour, too short, and an optimal bedtime. */
  lemma ShortLateNightExample()
    ensures var r := MakeRecord(1, 1, Entry(Time(23, 45), Time(0, 15), Good, None, 0));
      PersonalRecommendations(r) == [Message(TooShort, Warning), Message(OptimalBedtime, Success)]
  {
  }
}
