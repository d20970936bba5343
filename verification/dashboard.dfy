/**
 * The statistics cards and the overall recommendation of the dashboard: the mean of the
 * records' hours, the longest night, and a three-way verdict on the mean. Both numbers are
 * shown with one decimal (`toFixed(1)`), and the verdict is taken on the rounded mean.
 */
module Dashboard {
  import opened Common
  import opened Records

  /** The `hours` column of the fetched records, in order. */
  function HoursOf(records: seq<Record>): (hs: seq<real>)
    ensures |hs| == |records|
    ensures forall i :: 0 <= i < |records| ==> hs[i] == records[i].hours
  {
    seq(|records|, i requires 0 <= i < |records| => records[i].hours)
  }

  function Sum(xs: seq<real>): real
  {
    if |xs| == 0 then 0.0 else xs[0] + Sum(xs[1..])
  }

  /** The arithmetic mean, 0 for no records. */
  function Mean(xs: seq<real>): (m: real)
    ensures |xs| == 0 ==> m == 0.0
    ensures |xs| > 0 ==> m * (|xs| as real) == Sum(xs)
  {
    if |xs| == 0 then 0.0 else Sum(xs) / (|xs| as real)
  }

  /** `Math.max(...xs)` for a non-empty list. */
  function Max(xs: seq<real>): (m: real)
    requires |xs| > 0
    ensures m in xs
    ensures forall i :: 0 <= i < |xs| ==> xs[i] <= m
  {
    if |xs| == 1 then xs[0]
    else
      var rest := Max(xs[1..]);
      if xs[0] >= rest then xs[0] else rest
  }

  /**
   * The tenths `x.toFixed(1)` shows: the whole number of tenths nearest to x, with halves
   * rounded away from zero.
   */
  function Tenths(x: real): (n: int)
    ensures x >= 0.0 ==> n as real - 0.5 <= x * 10.0 < n as real + 0.5
    ensures x < 0.0 ==> n as real - 0.5 < x * 10.0 <= n as real + 0.5
  {
    if x < 0.0 then -TenthsHalfUp(-x) else TenthsHalfUp(x)
  }

  /** The number of tenths `toFixed(1)` shows for a non-negative value: halves round up. */
  function TenthsHalfUp(x: real): (n: int)
    ensures n as real - 0.5 <= x * 10.0 < n as real + 0.5
  {
    (x * 10.0 + 0.5).Floor
  }

  /** `x.toFixed(1)` read back as a number. */
  function Round1(x: real): (r: real)
    ensures r * 10.0 == Tenths(x) as real
    ensures x >= 0.0 ==> x - 0.05 < r <= x + 0.05
    ensures x < 0.0 ==> x - 0.05 <= r < x + 0.05
  {
    Tenths(x) as real / 10.0
  }

  /** Rounding to one decimal never reverses an order. */
  lemma Round1Monotone(x: real, y: real)
    requires x <= y
    ensures Round1(x) <= Round1(y)
  {
    if x < 0.0 && y < 0.0 {
      assert TenthsHalfUp(-y) <= TenthsHalfUp(-x);
    } else if x < 0.0 {
      assert TenthsHalfUp(-x) >= 0;
    } else {
      assert TenthsHalfUp(x) <= TenthsHalfUp(y);
    }
    assert Tenths(x) <= Tenths(y);
  }

  /** The average card: the rounded mean, or 0 for no records. */
  function AverageHours(records: seq<Record>): (a: real)
    ensures |records| == 0 ==> a == 0.0
    ensures |records| > 0 ==> a == Round1(Sum(HoursOf(records)) / (|records| as real))
  {
    if |records| > 0 then Round1(Mean(HoursOf(records))) else 0.0
  }

  /** The best-sleep card: the rounded longest night, or 0 for no records. */
  function BestSleep(records: seq<Record>): (b: real)
    ensures |records| == 0 ==> b == 0.0
    ensures |records| > 0 ==> exists i :: 0 <= i < |records| && b == Round1(records[i].hours)
    ensures forall i :: 0 <= i < |records| ==> Round1(records[i].hours) <= b
  {
    if |records| > 0 then
      var m := Max(HoursOf(records));
      RoundedAtMost(HoursOf(records), m);
      Round1(m)
    else 0.0
  }

  /** Every value no greater than `m` rounds to at most the rounding of `m`. */
  lemma RoundedAtMost(xs: seq<real>, m: real)
    requires forall i :: 0 <= i < |xs| ==> xs[i] <= m
    ensures forall i :: 0 <= i < |xs| ==> Round1(xs[i]) <= Round1(m)
  {
    forall i | 0 <= i < |xs|
      ensures Round1(xs[i]) <= Round1(m)
    {
      Round1Monotone(xs[i], m);
    }
  }

  datatype Verdict = GoodSleep | LowSleep | HighSleep

  /** getRecommendation: good in [7, 9], low below 7, high above 9. */
  function Classify(avg: real): (v: Verdict)
    ensures v == GoodSleep <==> 7.0 <= avg <= 9.0
    ensures v == LowSleep <==> avg < 7.0
    ensures v == HighSleep <==> 9.0 < avg
  {
    if avg >= 7.0 && avg <= 9.0 then GoodSleep
    else if avg < 7.0 then LowSleep
    else HighSleep
  }

  /** The recommendation card: shown only when there is a record, judged on the rounded mean. */
  function Recommendation(records: seq<Record>): (v: Option<Verdict>)
    ensures v.None? <==> |records| == 0
    ensures v.Some? ==> v.value == Classify(AverageHours(records))
  {
    if |records| > 0 then Some(Classify(AverageHours(records))) else None
  }

  /** A sum of values none above `m` is at most `m` times their count. */
  lemma {:induction false} SumAtMost(xs: seq<real>, m: real)
    requires forall i :: 0 <= i < |xs| ==> xs[i] <= m
    ensures Sum(xs) <= (|xs| as real) * m
  {
    if |xs| > 0 {
      SumAtMost(xs[1..], m);
    }
  }

  /** The mean of a non-empty list never exceeds a bound on its elements. */
  lemma MeanAtMost(xs: seq<real>, m: real)
    requires |xs| > 0
    requires forall i :: 0 <= i < |xs| ==> xs[i] <= m
    ensures Mean(xs) <= m
  {
    var n := |xs| as real;
    SumAtMost(xs, m);
    assert Mean(xs) * n == Sum(xs);
    CancelFactor(Mean(xs), m, n);
  }

  lemma CancelFactor(a: real, b: real, n: real)
    requires n > 0.0 && a * n <= n * b
    ensures a <= b
  {
  }

  /** The average card never shows more than the best-sleep card, before or after rounding. */
  lemma AverageAtMostBest(records: seq<Record>)
    ensures |records| > 0 ==> Mean(HoursOf(records)) <= Max(HoursOf(records))
    ensures AverageHours(records) <= BestSleep(records)
  {
    if |records| > 0 {
      var hs := HoursOf(records);
      MeanAtMost(hs, Max(hs));
      Round1Monotone(Mean(hs), Max(hs));
    }
  }

  /** A raw mean from 6.95 up to 7 shows as 7.0 and is judged good, although it is below 7. */
  lemma RoundedMeanDecides(x: real)
    requires 6.95 <= x < 7.0
    ensures Round1(x) == 7.0
    ensures Classify(Round1(x)) == GoodSleep && Classify(x) == LowSleep
  {
    assert TenthsHalfUp(x) == 70;
  }
}
