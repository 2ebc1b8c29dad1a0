/**
  The metric anomaly detector: distance from the median in units of the median absolute deviation.
  While most of the history lies in a band, no other samples can hide a value far outside it.
 */
module Anomaly {
  import opened Wrappers
  import opened Sorting

  predicate Le(x: real, y: real) {
    x <= y
  }

  function Sorted(s: seq<real>): (r: seq<real>)
    ensures |r| == |s|
  {
    SortSorts(s, Le);
    assert |multiset(Sort(s, Le))| == |Sort(s, Le)| && |multiset(s)| == |s|;
    Sort(s, Le)
  }

  /** The middle value of the samples, or the mean of the two middle ones. */
  function Median(s: seq<real>): real
    requires s != []
  {
    var t, n := Sorted(s), |s|;
    if n % 2 == 1 then t[n / 2] else (t[n / 2 - 1] + t[n / 2]) / 2.0
  }

  function Abs(x: real): real {
    if x < 0.0 then -x else x
  }

  function Deviations(s: seq<real>, center: real): (d: seq<real>)
    ensures |d| == |s|
  {
    seq(|s|, i requires 0 <= i < |s| => Abs(s[i] - center))
  }

  function Mad(s: seq<real>): real
    requires s != []
  {
    Median(Deviations(s, Median(s)))
  }

  function Least(s: seq<real>): real
    requires s != []
  {
    var n := |s| - 1;
    if n == 0 then s[0] else var m := Least(s[..n]); if s[n] < m then s[n] else m
  }

  function Greatest(s: seq<real>): real
    requires s != []
  {
    var n := |s| - 1;
    if n == 0 then s[0] else var m := Greatest(s[..n]); if s[n] > m then s[n] else m
  }

  function Max(x: real, y: real): real {
    if x < y then y else x
  }

  // ---------------------------------------------------------------------------------------------
  // Counting.

  predicate Within(x: real, lo: real, hi: real) {
    lo <= x <= hi
  }

  function CountIn(s: seq<real>, lo: real, hi: real): (c: nat)
    ensures c <= |s|
  {
    if s == [] then 0 else (if Within(s[0], lo, hi) then 1 else 0) + CountIn(s[1..], lo, hi)
  }

  /** More than half of the samples lie in the band. */
  predicate Majority(s: seq<real>, lo: real, hi: real) {
    2 * CountIn(s, lo, hi) > |s|
  }

  lemma {:induction false} CountInsert(x: real, s: seq<real>, lo: real, hi: real)
    ensures CountIn(Insert(x, s, Le), lo, hi) == CountIn(s, lo, hi) + if Within(x, lo, hi) then 1 else 0
  {
    if s == [] || Le(x, s[0]) {
      assert ([x] + s)[1..] == s;
    } else {
      CountInsert(x, s[1..], lo, hi);
      assert ([s[0]] + Insert(x, s[1..], Le))[1..] == Insert(x, s[1..], Le);
    }
  }

  lemma {:induction false} CountSort(s: seq<real>, lo: real, hi: real)
    ensures CountIn(Sort(s, Le), lo, hi) == CountIn(s, lo, hi)
  {
    if s != [] {
      CountSort(s[1..], lo, hi);
      CountInsert(s[0], Sort(s[1..], Le), lo, hi);
    }
  }

  lemma {:induction false} CountSplit(s: seq<real>, k: nat, lo: real, hi: real)
    requires k <= |s|
    ensures CountIn(s, lo, hi) == CountIn(s[..k], lo, hi) + CountIn(s[k..], lo, hi)
  {
    if k > 0 {
      CountSplit(s[1..], k - 1, lo, hi);
      assert s[..k][1..] == s[1..][..k - 1] && s[1..][k - 1..] == s[k..];
    } else {
      assert s[0..] == s;
    }
  }

  lemma {:induction false} CountNone(s: seq<real>, lo: real, hi: real)
    requires forall i :: 0 <= i < |s| ==> !Within(s[i], lo, hi)
    ensures CountIn(s, lo, hi) == 0
  {
    if s != [] {
      CountNone(s[1..], lo, hi);
    }
  }

  lemma {:induction false} CountAll(s: seq<real>, lo: real, hi: real)
    requires forall i :: 0 <= i < |s| ==> Within(s[i], lo, hi)
    ensures CountIn(s, lo, hi) == |s|
  {
    if s != [] {
      CountAll(s[1..], lo, hi);
    }
  }

  // ---------------------------------------------------------------------------------------------
  // The median follows the majority.

  /** In sorted order, no middle position is outside a band that holds the majority. */
  lemma MiddleInBand(t: seq<real>, k: nat, lo: real, hi: real)
    requires Ordered(t, Le) && Majority(t, lo, hi) && k < |t| && |t| <= 2 * k + 2 && 2 * k <= |t|
    ensures Within(t[k], lo, hi)
  {
    if t[k] < lo {
      forall i | 0 <= i <= k ensures t[i] < lo {
        assert i < k ==> Le(t[i], t[k]);
      }
      CountSplit(t, k + 1, lo, hi);
      CountNone(t[..k + 1], lo, hi);
      assert false;
    } else if t[k] > hi {
      forall i | k <= i < |t| ensures t[i] > hi {
        assert k < i ==> Le(t[k], t[i]);
      }
      CountSplit(t, k, lo, hi);
      CountNone(t[k..], lo, hi);
      assert false;
    }
  }

  lemma LeIsTotal()
    ensures TotalOrder(Le)
  {
  }

  /** The median lies in every band that holds more than half of the samples. */
  lemma MedianInBand(s: seq<real>, lo: real, hi: real)
    requires s != [] && Majority(s, lo, hi)
    ensures Within(Median(s), lo, hi)
  {
    LeIsTotal();
    SortSorts(s, Le);
    CountSort(s, lo, hi);
    var t, n := Sorted(s), |s|;
    MiddleInBand(t, n / 2, lo, hi);
    if n % 2 == 0 {
      MiddleInBand(t, n / 2 - 1, lo, hi);
    }
  }

  lemma {:induction false} DeviationsInBand(s: seq<real>, center: real, lo: real, hi: real)
    requires Within(center, lo, hi)
    ensures CountIn(s, lo, hi) <= CountIn(Deviations(s, center), 0.0, hi - lo)
  {
    if s != [] {
      DeviationsInBand(s[1..], center, lo, hi);
      assert Deviations(s, center)[1..] == Deviations(s[1..], center);
    }
  }

  /** So the deviation is at most the width of the band. */
  lemma MadWithinWidth(s: seq<real>, lo: real, hi: real)
    requires s != [] && Majority(s, lo, hi)
    ensures 0.0 <= Mad(s) <= hi - lo
  {
    MedianInBand(s, lo, hi);
    DeviationsInBand(s, Median(s), lo, hi);
    MedianInBand(Deviations(s, Median(s)), 0.0, hi - lo);
  }

  lemma {:induction false} DeviationsZero(s: seq<real>, center: real)
    ensures CountIn(s, center, center) == CountIn(Deviations(s, center), 0.0, 0.0)
  {
    if s != [] {
      DeviationsZero(s[1..], center);
      assert Deviations(s, center)[1..] == Deviations(s[1..], center);
    }
  }

  lemma SortedStaysAbove(d: seq<real>)
    requires forall i :: 0 <= i < |d| ==> 0.0 <= d[i]
    ensures forall i :: 0 <= i < |d| ==> 0.0 <= Sorted(d)[i]
  {
    LeIsTotal();
    SortSorts(d, Le);
    forall i | 0 <= i < |d| ensures 0.0 <= Sorted(d)[i] {
      assert Sorted(d)[i] in multiset(Sort(d, Le));
      assert Sorted(d)[i] in multiset(d);
    }
  }

  /** A median of values that are not negative is zero only when most of them are. */
  lemma ZeroMedian(d: seq<real>)
    requires d != [] && Median(d) == 0.0 && forall i :: 0 <= i < |d| ==> 0.0 <= d[i]
    ensures Majority(d, 0.0, 0.0)
  {
    LeIsTotal();
    SortSorts(d, Le);
    CountSort(d, 0.0, 0.0);
    var t, k := Sorted(d), |d| / 2;
    SortedStaysAbove(d);
    forall i | 0 <= i <= k ensures Within(t[i], 0.0, 0.0) {
      assert i < k ==> Le(t[i], t[k]);
    }
    CountSplit(t, k + 1, 0.0, 0.0);
    CountAll(t[..k + 1], 0.0, 0.0);
  }

  /** The deviation is zero exactly when more than half of the samples equal the median. */
  lemma MadIsZeroIff(s: seq<real>)
    requires s != []
    ensures Mad(s) == 0.0 <==> Majority(s, Median(s), Median(s))
  {
    DeviationsZero(s, Median(s));
    if Majority(s, Median(s), Median(s)) {
      MadWithinWidth(s, Median(s), Median(s));
    }
    if Mad(s) == 0.0 {
      ZeroMedian(Deviations(s, Median(s)));
    }
  }

  // ---------------------------------------------------------------------------------------------
  // The median by order.

  /** How many samples are at most x. */
  function AtMost(s: seq<real>, x: real): nat {
    if s == [] then 0 else CountIn(s, Least(s), x)
  }

  /** How many samples are at least x. */
  function AtLeast(s: seq<real>, x: real): nat {
    if s == [] then 0 else CountIn(s, x, Greatest(s))
  }

  /** The k-th smallest sample, from zero: at most k samples are smaller, and more than k are no larger. */
  ghost predicate Ranked(s: seq<real>, x: real, k: nat) {
    |s| - AtLeast(s, x) <= k < AtMost(s, x)
  }

  lemma {:induction false} Extremes(s: seq<real>)
    requires s != []
    ensures Least(s) in s && Greatest(s) in s
    ensures forall i :: 0 <= i < |s| ==> Least(s) <= s[i] <= Greatest(s)
  {
    var n := |s| - 1;
    if 0 < n {
      Extremes(s[..n]);
    }
  }

  lemma {:induction false} CountApart(s: seq<real>, lo: real, x: real, y: real, hi: real)
    requires x < y && forall i :: 0 <= i < |s| ==> lo <= s[i] <= hi
    ensures CountIn(s, lo, x) + CountIn(s, y, hi) <= |s|
  {
    if s != [] {
      CountApart(s[1..], lo, x, y, hi);
    }
  }

  /** There is only one sample of a rank. */
  lemma RankIsUnique(s: seq<real>, x: real, y: real, k: nat)
    requires s != [] && Ranked(s, x, k) && Ranked(s, y, k)
    ensures x == y
  {
    Extremes(s);
    if x < y {
      CountApart(s, Least(s), x, y, Greatest(s));
    } else if y < x {
      CountApart(s, Least(s), y, x, Greatest(s));
    }
  }

  lemma SortedRank(s: seq<real>, k: nat)
    requires k < |s|
    ensures Ranked(s, Sorted(s)[k], k) && Sorted(s)[k] in s
  {
    LeIsTotal();
    SortSorts(s, Le);
    Extremes(s);
    var t, lo, hi := Sorted(s), Least(s), Greatest(s);
    assert t[k] in multiset(t);
    assert t[k] in multiset(s);
    forall i | 0 <= i < |t| ensures lo <= t[i] <= hi {
      assert t[i] in multiset(t);
      assert t[i] in multiset(s);
    }
    CountSort(s, lo, t[k]);
    CountSort(s, t[k], hi);
    RankInOrder(t, k, lo, hi);
  }

  lemma RankInOrder(t: seq<real>, k: nat, lo: real, hi: real)
    requires Ordered(t, Le) && k < |t| && forall i :: 0 <= i < |t| ==> lo <= t[i] <= hi
    ensures k < CountIn(t, lo, t[k]) && |t| - k <= CountIn(t, t[k], hi)
  {
    forall i | 0 <= i <= k ensures Within(t[i], lo, t[k]) {
      assert i < k ==> Le(t[i], t[k]);
    }
    forall i | k <= i < |t| ensures Within(t[i], t[k], hi) {
      assert k < i ==> Le(t[k], t[i]);
    }
    CountSplit(t, k + 1, lo, t[k]);
    CountAll(t[..k + 1], lo, t[k]);
    CountSplit(t, k, t[k], hi);
    CountAll(t[k..], t[k], hi);
  }

  /** The median is the midpoint of the two middle samples by rank, which are one and the same for an odd count. */
  lemma MedianIsMiddle(s: seq<real>, x: real, y: real)
    requires s != [] && Ranked(s, x, (|s| - 1) / 2) && Ranked(s, y, |s| / 2)
    ensures Median(s) == (x + y) / 2.0
  {
    var t, n := Sorted(s), |s|;
    SortedRank(s, (n - 1) / 2);
    SortedRank(s, n / 2);
    RankIsUnique(s, x, t[(n - 1) / 2], (n - 1) / 2);
    RankIsUnique(s, y, t[n / 2], n / 2);
  }

  /** At least half of the samples are at most the median, and at least half are at least it. */
  lemma MedianHalves(s: seq<real>)
    requires s != []
    ensures |s| <= 2 * AtMost(s, Median(s)) && |s| <= 2 * AtLeast(s, Median(s))
  {
    var t, n := Sorted(s), |s|;
    var x, y := t[(n - 1) / 2], t[n / 2];
    SortedRank(s, (n - 1) / 2);
    SortedRank(s, n / 2);
    MedianIsMiddle(s, x, y);
    LeIsTotal();
    SortSorts(s, Le);
    assert n % 2 == 0 ==> Le(x, y);
    CountGrows(s, Least(s), x, Least(s), Median(s));
    CountGrows(s, y, Greatest(s), Median(s), Greatest(s));
  }

  lemma {:induction false} CountGrows(s: seq<real>, lo: real, hi: real, lo': real, hi': real)
    requires lo' <= lo && hi <= hi'
    ensures CountIn(s, lo, hi) <= CountIn(s, lo', hi')
  {
    if s != [] {
      CountGrows(s[1..], lo, hi, lo', hi');
    }
  }

  // ---------------------------------------------------------------------------------------------
  // Samples away from the median.

  /** More than half of the samples are at distance d or more from x. */
  ghost predicate MostlyAway(s: seq<real>, x: real, d: real) {
    |s| < 2 * (AtMost(s, x - d) + AtLeast(s, x + d))
  }

  lemma {:induction false} DeviationsAway(s: seq<real>, x: real, d: real, lo: real, hi: real, far: real)
    requires 0.0 < d && forall i :: 0 <= i < |s| ==> lo <= s[i] <= hi && Abs(s[i] - x) <= far
    ensures CountIn(s, lo, x - d) + CountIn(s, x + d, hi) <= CountIn(Deviations(s, x), d, far)
  {
    if s != [] {
      DeviationsAway(s[1..], x, d, lo, hi, far);
      assert Deviations(s, x)[1..] == Deviations(s[1..], x);
    }
  }

  /** Then the deviation is at least that distance. */
  lemma MadAtLeast(s: seq<real>, d: real)
    requires s != [] && 0.0 < d && MostlyAway(s, Median(s), d)
    ensures d <= Mad(s)
  {
    var m, devs := Median(s), Deviations(s, Median(s));
    Extremes(s);
    Extremes(devs);
    forall i | 0 <= i < |s| ensures Abs(s[i] - m) <= Greatest(devs) {
      assert devs[i] == Abs(s[i] - m);
    }
    DeviationsAway(s, m, d, Least(s), Greatest(s), Greatest(devs));
    MedianInBand(devs, d, Greatest(devs));
  }

  // ---------------------------------------------------------------------------------------------
  // The detector.

  datatype Settings = Settings(minSamples: nat, threshold: real, historyLimit: nat)

  datatype Verdict = Verdict(anomaly: bool, score: real, baseline: Option<real>, samples: nat, value: real)

  function Epsilon(history: seq<real>): (e: real)
    requires history != []
    ensures 0.0 < e
  {
    Max(Abs(Median(history)) * 0.05, Max((Greatest(history) - Least(history)) * 2.0, 0.000000001))
  }

  function Judge(history: seq<real>, value: real, settings: Settings): Verdict
    requires history != [] || 0 < settings.minSamples
  {
    if |history| < settings.minSamples then Verdict(false, 0.0, None, |history|, value)
    else
      var baseline, mad := Median(history), Mad(history);
      var distance := Abs(value - baseline);
      if mad > 0.0 then
        var score := distance / (1.4826 * mad);
        Verdict(score >= settings.threshold, score, Some(baseline), |history|, value)
      else
        Verdict(distance > Epsilon(history), distance / Epsilon(history), Some(baseline), |history|, value)
  }

  lemma QuotientAtLeast(x: real, y: real, t: real)
    requires 0.0 < y && t * y <= x
    ensures t <= x / y
  {
    var q := x / y;
    assert q * y == x;
    assert 0.0 <= (q - t) * y;
  }

  lemma ScaledBy(t: real, a: real, b: real)
    requires 0.0 <= t && a <= b
    ensures t * a <= t * b
  {
  }

  predicate Outside(value: real, lo: real, hi: real, reach: real) {
    value <= lo - reach || hi + reach <= value
  }

  /** The score of a value far outside a band that holds the baseline and is wider than the deviation. */
  lemma FarScore(baseline: real, mad: real, threshold: real, lo: real, hi: real, value: real)
    requires Within(baseline, lo, hi) && 0.0 < mad <= hi - lo
    requires Outside(value, lo, hi, threshold * (1.4826 * (hi - lo)))
    ensures threshold <= Abs(value - baseline) / (1.4826 * mad)
  {
    var unit, distance := 1.4826 * mad, Abs(value - baseline);
    if 0.0 <= threshold {
      ScaledBy(threshold, unit, 1.4826 * (hi - lo));
      assert threshold * unit <= threshold * (1.4826 * (hi - lo)) <= distance;
      QuotientAtLeast(distance, unit, threshold);
    } else {
      QuotientAtLeast(distance, unit, 0.0);
    }
  }

  /**
    With more than half of the history in a band, and not more than half of it equal to the median, every value
    outside the band by the threshold times 1.4826 widths is flagged, whatever the remaining samples are.
   */
  lemma FarValuesAreFlagged(history: seq<real>, value: real, settings: Settings, lo: real, hi: real)
    requires history != [] && settings.minSamples <= |history| && Majority(history, lo, hi)
    requires !Majority(history, Median(history), Median(history))
    requires Outside(value, lo, hi, settings.threshold * (1.4826 * (hi - lo)))
    ensures Judge(history, value, settings).anomaly
  {
    MedianInBand(history, lo, hi);
    MadWithinWidth(history, lo, hi);
    MadIsZeroIff(history);
    FarScore(Median(history), Mad(history), settings.threshold, lo, hi, value);
  }

  predicate Flagged(history: seq<real>, value: real, settings: Settings)
    requires history != []
  {
    Judge(history, value, settings).anomaly
  }

  lemma EqualSamplesVerdict(history: seq<real>, value: real, settings: Settings)
    requires history != [] && settings.minSamples <= |history| && Majority(history, Median(history), Median(history))
    ensures Flagged(history, value, settings) <==> Epsilon(history) < Abs(value - Median(history))
  {
    MadIsZeroIff(history);
  }

  /** The least distance from a point in the band to a value outside by `reach`. */
  lemma NearestOutside(lo: real, hi: real, reach: real, m: real, e: real)
    requires Within(m, lo, hi) && 0.0 <= reach
    ensures
      (forall v :: Outside(v, lo, hi, reach) ==> e < Abs(v - m)) <==> e < m - lo + reach && e < hi - m + reach
  {
    assert Outside(lo - reach, lo, hi, reach) && Outside(hi + reach, lo, hi, reach);
    assert Abs(lo - reach - m) == m - lo + reach && Abs(hi + reach - m) == hi + reach - m;
  }

  /**
    Exactly when all far values are flagged: no majority of the samples is equal, or the tolerance used for equal
    samples is below the distance from the baseline to the nearest far value.
   */
  lemma FarValuesAreFlaggedIff(history: seq<real>, settings: Settings, lo: real, hi: real, reach: real)
    requires history != [] && settings.minSamples <= |history| && Majority(history, lo, hi)
    requires 0.0 <= reach == settings.threshold * (1.4826 * (hi - lo))
    ensures
      var m, e := Median(history), Epsilon(history);
      (forall value :: Outside(value, lo, hi, reach) ==> Flagged(history, value, settings)) <==>
      (Majority(history, m, m) ==> e < m - lo + reach && e < hi - m + reach)
  {
    var m, e := Median(history), Epsilon(history);
    MedianInBand(history, lo, hi);
    if Majority(history, m, m) {
      NearestOutside(lo, hi, reach, m, e);
      forall value ensures Flagged(history, value, settings) <==> e < Abs(value - m) {
        EqualSamplesVerdict(history, value, settings);
      }
    } else {
      forall value | Outside(value, lo, hi, reach) ensures Flagged(history, value, settings) {
        FarValuesAreFlagged(history, value, settings, lo, hi);
      }
    }
  }

  /** With too few samples nothing is flagged, there is no baseline, and the score is zero. */
  lemma TooFewFlagNothing(history: seq<real>, value: real, settings: Settings)
    requires |history| < settings.minSamples
    ensures Judge(history, value, settings) == Verdict(false, 0.0, None, |history|, value)
  {
  }

  /**
    The exact verdict when no majority of the samples is equal: the score is the distance in units of 1.4826
    deviations, and a value is flagged exactly when its distance is at least the threshold in those units.
   */
  lemma FlaggedIff(history: seq<real>, value: real, settings: Settings)
    requires history != [] && settings.minSamples <= |history|
    requires !Majority(history, Median(history), Median(history))
    ensures
      var v, unit, distance := Judge(history, value, settings), 1.4826 * Mad(history), Abs(value - Median(history));
      && 0.0 < unit && v.score * unit == distance && v.baseline == Some(Median(history))
      && (v.anomaly <==> settings.threshold * unit <= distance)
  {
    MadIsZeroIff(history);
    MadNotNegative(history);
    JudgedByDeviation(history, value, settings);
    QuotientIff(Abs(value - Median(history)), 1.4826 * Mad(history), settings.threshold);
  }

  lemma JudgedByDeviation(history: seq<real>, value: real, settings: Settings)
    requires history != [] && settings.minSamples <= |history| && 0.0 < Mad(history)
    ensures
      var score := Abs(value - Median(history)) / (1.4826 * Mad(history));
      Judge(history, value, settings) ==
      Verdict(score >= settings.threshold, score, Some(Median(history)), |history|, value)
  {
  }

  lemma MadNotNegative(s: seq<real>)
    requires s != []
    ensures 0.0 <= Mad(s)
  {
    var devs := Deviations(s, Median(s));
    SortedStaysAbove(devs);
  }

  lemma QuotientIff(x: real, y: real, t: real)
    requires 0.0 < y
    ensures (x / y) * y == x && (t <= x / y <==> t * y <= x)
  {
    var q := x / y;
    assert q * y == x;
    if t <= q {
      assert 0.0 <= (q - t) * y;
    } else {
      assert 0.0 < (t - q) * y;
    }
  }

  /** The exact verdict when a majority of the samples is equal. */
  lemma EqualSamplesFlaggedIff(history: seq<real>, value: real, settings: Settings, lo: real, hi: real)
    requires history != [] && settings.minSamples <= |history|
    requires Majority(history, Median(history), Median(history))
    requires lo in history && hi in history && forall i :: 0 <= i < |history| ==> lo <= history[i] <= hi
    ensures
      var v, m, distance := Judge(history, value, settings), Median(history), Abs(value - Median(history));
      && v.baseline == Some(m)
      && (v.anomaly <==> 0.05 * Abs(m) < distance && 2.0 * (hi - lo) < distance && 0.000000001 < distance)
  {
    Extremes(history);
    EqualSamplesVerdict(history, value, settings);
  }

  /**
    The dual of flagging far values: with more than half of the history at distance d or more from the median, no
    value closer to it than the threshold times 1.4826 times d is flagged, whatever the remaining samples are.
   */
  lemma NearValuesAreNotFlagged(history: seq<real>, value: real, settings: Settings, d: real)
    requires history != [] && settings.minSamples <= |history| && 0.0 < d && MostlyAway(history, Median(history), d)
    requires Abs(value - Median(history)) < settings.threshold * (1.4826 * d)
    ensures !Flagged(history, value, settings)
  {
    MadAtLeast(history, d);
    assert 0.0 < 1.4826 * d <= 1.4826 * Mad(history);
    StillNear(Abs(value - Median(history)), settings.threshold, 1.4826 * d, 1.4826 * Mad(history));
    NotFlaggedBelow(history, value, settings);
  }

  lemma NotFlaggedBelow(history: seq<real>, value: real, settings: Settings)
    requires history != [] && settings.minSamples <= |history| && 0.0 < Mad(history)
    requires Abs(value - Median(history)) < settings.threshold * (1.4826 * Mad(history))
    ensures !Flagged(history, value, settings)
  {
    JudgedByDeviation(history, value, settings);
    QuotientIff(Abs(value - Median(history)), 1.4826 * Mad(history), settings.threshold);
  }

  lemma StillNear(distance: real, t: real, a: real, b: real)
    requires 0.0 <= distance < t * a && 0.0 < a <= b
    ensures distance < t * b
  {
    assert 0.0 < t;
    assert t * (b - a) >= 0.0;
  }

  /** When most samples are equal, one extreme sample does hide a far value: the spread widens the tolerance. */
  lemma EqualSamplesCanBeMasked()
    ensures
      var history := [0.0, 0.0, 0.0, 0.0, 1000.0];
      Majority(history, 0.0, 0.0) && !Judge(history, 1500.0, Settings(5, 6.0, 50)).anomaly
  {
    var history := [0.0, 0.0, 0.0, 0.0, 1000.0];
    assert history[1..] == [0.0, 0.0, 0.0, 1000.0] && history[1..][1..] == [0.0, 0.0, 1000.0];
    assert CountIn([0.0, 0.0, 1000.0], 0.0, 0.0) >= 1 by {
      assert [0.0, 0.0, 1000.0][1..] == [0.0, 1000.0];
    }
    assert CountIn([0.0, 0.0, 0.0, 1000.0], 0.0, 0.0) >= 2;
    assert Majority(history, 0.0, 0.0);
    MedianInBand(history, 0.0, 0.0);
    MadIsZeroIff(history);
    assert history[..4] == [0.0, 0.0, 0.0, 0.0];
    Extremes(history);
    assert history[0] == 0.0 && history[4] == 1000.0;
  }

  // ---------------------------------------------------------------------------------------------
  // The detector over its table of metrics.

  datatype Metric = Metric(name: string, subject: string, ts: real, value: real)

  predicate Earlier(a: Metric, b: Metric) {
    a.ts <= b.ts
  }

  function Select(metrics: seq<Metric>, name: string, subject: string, before: real): seq<Metric> {
    if metrics == [] then []
    else
      var m := metrics[|metrics| - 1];
      Select(metrics[..|metrics| - 1], name, subject, before)
        + if m.name == name && m.subject == subject && m.ts < before then [m] else []
  }

  function Values(metrics: seq<Metric>): (vs: seq<real>)
    ensures |vs| == |metrics|
  {
    seq(|metrics|, i requires 0 <= i < |metrics| => metrics[i].value)
  }

  /** The newest values of a metric before a time, oldest first. */
  function History(metrics: seq<Metric>, name: string, subject: string, before: real, limit: nat): seq<real> {
    var all := Sort(Select(metrics, name, subject, before), Earlier);
    Values(if |all| <= limit then all else all[|all| - limit..])
  }

  /** The selection has the samples of that metric and subject before the time, as often as the table, and no other. */
  lemma {:induction false} SelectKeeps(metrics: seq<Metric>, name: string, subject: string, before: real, m: Metric)
    ensures multiset(Select(metrics, name, subject, before))[m] ==
      if m.name == name && m.subject == subject && m.ts < before then multiset(metrics)[m] else 0
  {
    if metrics != [] {
      var n := |metrics| - 1;
      var front, last := metrics[..n], metrics[n];
      SelectKeeps(front, name, subject, before, m);
      CountedOnceMore(front, last, m);
      assert metrics == front + [last];
      SelectsOneMore(front, last, name, subject, before, m);
    }
  }

  lemma SelectsOneMore(front: seq<Metric>, last: Metric, name: string, subject: string, before: real, m: Metric)
    ensures multiset(Select(front + [last], name, subject, before))[m] ==
      multiset(Select(front, name, subject, before))[m]
        + if m == last && last.name == name && last.subject == subject && last.ts < before then 1 else 0
  {
    var all := front + [last];
    assert all[..|front|] == front && all[|front|] == last;
    if last.name == name && last.subject == subject && last.ts < before {
      CountedOnceMore(Select(front, name, subject, before), last, m);
    }
  }

  lemma CountedOnceMore(s: seq<Metric>, x: Metric, m: Metric)
    ensures multiset(s + [x])[m] == multiset(s)[m] + if m == x then 1 else 0
  {
  }

  /** The newest part of a selection: in order of time, as many as allowed, none left out later than one kept. */
  ghost predicate Newest(kept: seq<Metric>, dropped: seq<Metric>, all: seq<Metric>, limit: nat) {
    && multiset(dropped) + multiset(kept) == multiset(all)
    && |kept| == (if |all| <= limit then |all| else limit)
    && InTime(dropped, kept)
  }

  ghost predicate InTime(dropped: seq<Metric>, kept: seq<Metric>) {
    && (forall i, j :: 0 <= i < j < |kept| ==> kept[i].ts <= kept[j].ts)
    && (forall i, j :: 0 <= i < |dropped| && 0 <= j < |kept| ==> dropped[i].ts <= kept[j].ts)
  }

  lemma HistoryIsNewest(metrics: seq<Metric>, name: string, subject: string, before: real, limit: nat)
    returns (kept: seq<Metric>, dropped: seq<Metric>)
    ensures Newest(kept, dropped, Select(metrics, name, subject, before), limit)
    ensures History(metrics, name, subject, before, limit) == Values(kept)
  {
    var all := Select(metrics, name, subject, before);
    SortSorts(all, Earlier);
    kept, dropped := CutNewest(Sort(all, Earlier), all, limit);
  }

  lemma CutNewest(sorted: seq<Metric>, all: seq<Metric>, limit: nat) returns (kept: seq<Metric>, dropped: seq<Metric>)
    requires multiset(sorted) == multiset(all) && Ordered(sorted, Earlier)
    ensures Newest(kept, dropped, all, limit)
    ensures kept == if |sorted| <= limit then sorted else sorted[|sorted| - limit..]
  {
    SameLength(sorted, all);
    var cut := if |sorted| <= limit then 0 else |sorted| - limit;
    kept, dropped := sorted[cut..], sorted[..cut];
    CutOrdered(sorted, cut);
    CutWhole(sorted, cut);
  }

  lemma SameLength(a: seq<Metric>, b: seq<Metric>)
    requires multiset(a) == multiset(b)
    ensures |a| == |b|
  {
    assert |multiset(a)| == |a| && |multiset(b)| == |b|;
  }

  lemma CutWhole(s: seq<Metric>, cut: nat)
    requires cut <= |s|
    ensures multiset(s[..cut]) + multiset(s[cut..]) == multiset(s)
  {
    assert s == s[..cut] + s[cut..];
  }

  lemma CutOrdered(sorted: seq<Metric>, cut: nat)
    requires Ordered(sorted, Earlier) && cut <= |sorted|
    ensures InTime(sorted[..cut], sorted[cut..])
  {
    forall i, j | 0 <= i < j < |sorted| ensures sorted[i].ts <= sorted[j].ts {
      assert Earlier(sorted[i], sorted[j]);
    }
  }

  method MetricValues(metrics: seq<Metric>, name: string, subject: string, before: real, limit: nat)
    returns (history: seq<real>)
    ensures history == History(metrics, name, subject, before, limit)
    ensures exists kept, dropped ::
      && Newest(kept, dropped, Select(metrics, name, subject, before), limit)
      && history == Values(kept)
  {
    ghost var kept, dropped := HistoryIsNewest(metrics, name, subject, before, limit);
    var rows := SelectRows(metrics, name, subject, before);
    rows := Sort(rows, Earlier);
    if |rows| > limit {
      rows := rows[|rows| - limit..];
    }
    return Values(rows);
  }

  method SelectRows(metrics: seq<Metric>, name: string, subject: string, before: real) returns (rows: seq<Metric>)
    ensures rows == Select(metrics, name, subject, before)
  {
    rows := [];
    for i := 0 to |metrics|
      invariant rows == Select(metrics[..i], name, subject, before)
    {
      assert metrics[..i + 1][..i] == metrics[..i];
      if metrics[i].name == name && metrics[i].subject == subject && metrics[i].ts < before {
        rows := rows + [metrics[i]];
      }
    }
    assert metrics[..|metrics|] == metrics;
  }

  class AnomalyDetector {
    const settings: Settings
    var metrics: seq<Metric>

    constructor (settings: Settings)
      ensures this.settings == settings && metrics == []
    {
      this.settings, metrics := settings, [];
    }

    /** Judges a value against the history before it, then records it; without any sample to judge by, it fails. */
    method Observe(name: string, subject: string, value: real, ts: real) returns (r: Option<Verdict>)
      modifies this`metrics
      ensures
        var history := History(old(metrics), name, subject, ts, settings.historyLimit);
        if history == [] && settings.minSamples == 0 then r == None && metrics == old(metrics)
        else r == Some(Judge(history, value, settings)) && metrics == old(metrics) + [Metric(name, subject, ts, value)]
    {
      var history := MetricValues(metrics, name, subject, ts, settings.historyLimit);
      if history == [] && settings.minSamples == 0 {
        return None;
      }
      metrics := metrics + [Metric(name, subject, ts, value)];
      return Some(Judge(history, value, settings));
    }
  }
}
