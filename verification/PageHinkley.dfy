/** The Page-Hinkley drift detector, tuned to decreases (ai/retraining/triggers.py:59-135). */
module PageHinkley {
  import opened Collections

  // ---------------------------------------------------------------- what the detector measures

  function Sum(xs: seq<real>): real {
    if xs == [] then 0.0 else Sum(xs[..|xs| - 1]) + xs[|xs| - 1]
  }

  function Mean(xs: seq<real>): real {
    if xs == [] then 0.0 else Sum(xs) / |xs| as real
  }

  /** `x` added up `t` times. */
  function Multiple(x: real, t: nat): real {
    x * (t as real)
  }

  /** How far observation `i` fell below the mean up to and including itself, beyond `delta`. */
  function Evidence(xs: seq<real>, delta: real, i: nat): real
    requires i < |xs|
  {
    Mean(xs[..i + 1]) - xs[i] - delta
  }

  /** Evidence collected from observation `j` on. */
  function EvidenceSince(xs: seq<real>, delta: real, j: nat): real
    requires j <= |xs|
    decreases |xs| - j
  {
    if j == |xs| then 0.0 else Evidence(xs, delta, j) + EvidenceSince(xs, delta, j + 1)
  }

  /** The running sum the detector keeps, and its running maximum. */
  function Cumulative(xs: seq<real>, delta: real): real {
    if xs == [] then 0.0 else Cumulative(xs[..|xs| - 1], delta) + (xs[|xs| - 1] - Mean(xs) + delta)
  }

  function MaxCumulative(xs: seq<real>, delta: real): real {
    if xs == [] then 0.0 else Max(MaxCumulative(xs[..|xs| - 1], delta), Cumulative(xs, delta))
  }

  function Max(a: real, b: real): real {
    if a >= b then a else b
  }

  function Gap(xs: seq<real>, delta: real): real {
    MaxCumulative(xs, delta) - Cumulative(xs, delta)
  }

  predicate Alarm(xs: seq<real>, delta: real, threshold: real, minSamples: int) {
    |xs| >= minSamples && Gap(xs, delta) > threshold
  }

  // ---------------------------------------------------------------- the stateful detector

  class Detector {
    const delta: real
    const threshold: real
    const minSamples: int
    var n: nat
    var mean: real
    var cumulative: real
    var maxCumulative: real

    /** Everything fed since the last reset; the detector itself retains none of it. */
    ghost var history: seq<real>

    ghost predicate Valid()
      reads this
    {
      && n == |history|
      && mean * (n as real) == Sum(history)
      && (n == 0 ==> mean == 0.0)
      && cumulative == Cumulative(history, delta)
      && maxCumulative == MaxCumulative(history, delta)
    }

    constructor (delta: real, threshold: real, minSamples: int)
      ensures Valid() && history == []
      ensures this.delta == delta && this.threshold == threshold && this.minSamples == minSamples
    {
      this.delta, this.threshold, this.minSamples := delta, threshold, minSamples;
      n, mean, cumulative, maxCumulative := 0, 0.0, 0.0, 0.0;
      history := [];
    }

    method Update(value: real) returns (drift: bool)
      requires Valid()
      modifies this
      ensures Valid() && history == old(history) + [value]
      ensures drift <==> Alarm(history, delta, threshold, minSamples)
      ensures drift <==> |history| >= minSamples && MoreEvidenceThan(history, delta, threshold)
      ensures |history| < minSamples ==> !drift
    {
      ghost var before := history;
      n := n + 1;
      mean := mean + (value - mean) / n as real;
      history := history + [value];
      assert history[..|history| - 1] == before;
      RunningMean(old(mean), mean, value, Sum(before), n);
      MeanIs(history, mean);
      cumulative := cumulative + (value - mean + delta);
      maxCumulative := Max(maxCumulative, cumulative);
      AlarmMeans(history, delta, threshold, minSamples);
      hide MoreEvidenceThan;
      if n < minSamples {
        return false;
      }
      return maxCumulative - cumulative > threshold;
    }

    method Reset()
      modifies this
      ensures Valid() && history == []
    {
      n := 0;
      mean := 0.0;
      cumulative := 0.0;
      maxCumulative := 0.0;
      history := [];
    }
  }

  lemma RunningMean(before: real, after: real, value: real, sum: real, n: nat)
    requires n > 0 && before * ((n - 1) as real) == sum
    requires after == before + (value - before) / n as real
    ensures after * (n as real) == sum + value
  {
    var step := (value - before) / n as real;
    assert step * (n as real) == value - before;
    Spread(before, step, n as real);
    assert before * (n as real) == before * ((n - 1) as real) + before;
  }

  lemma Spread(a: real, b: real, c: real)
    ensures (a + b) * c == a * c + b * c
  {}

  lemma MeanIs(xs: seq<real>, m: real)
    requires xs != [] && m * (|xs| as real) == Sum(xs)
    ensures Mean(xs) == m
  {
    Cancels(m, |xs| as real, Sum(xs));
  }

  lemma Cancels(m: real, c: real, s: real)
    requires c != 0.0 && m * c == s
    ensures s / c == m
  {}

  // ---------------------------------------------------------------- the gap is the largest suffix sum

  lemma {:induction false} CumulativeSplit(xs: seq<real>, delta: real, j: nat)
    requires j <= |xs|
    ensures EvidenceSince(xs, delta, j) == Cumulative(xs[..j], delta) - Cumulative(xs, delta)
    decreases |xs| - j
  {
    if j == |xs| {
      assert xs[..j] == xs;
    } else {
      CumulativeSplit(xs, delta, j + 1);
      assert xs[..j + 1][..j] == xs[..j];
    }
  }

  lemma {:induction false} MaxIsOverPrefixes(xs: seq<real>, delta: real)
    ensures forall j :: 0 <= j <= |xs| ==> Cumulative(xs[..j], delta) <= MaxCumulative(xs, delta)
    ensures exists j :: 0 <= j <= |xs| && Cumulative(xs[..j], delta) == MaxCumulative(xs, delta)
  {
    assert xs[..|xs|] == xs;
    if xs == [] {
      assert Cumulative(xs[..0], delta) == MaxCumulative(xs, delta);
    } else {
      var rest := xs[..|xs| - 1];
      MaxIsOverPrefixes(rest, delta);
      forall j | 0 <= j < |xs| ensures rest[..j] == xs[..j] {}
      var j :| 0 <= j <= |rest| && Cumulative(rest[..j], delta) == MaxCumulative(rest, delta);
      if MaxCumulative(rest, delta) >= Cumulative(xs, delta) {
        assert Cumulative(xs[..j], delta) == MaxCumulative(xs, delta);
      } else {
        assert Cumulative(xs[..|xs|], delta) == MaxCumulative(xs, delta);
      }
    }
  }

  /** What raises the alarm: the most evidence collected since any point in the past. */
  lemma GapIsMostEvidence(xs: seq<real>, delta: real)
    ensures forall j :: 0 <= j <= |xs| ==> EvidenceSince(xs, delta, j) <= Gap(xs, delta)
    ensures exists j :: 0 <= j <= |xs| && EvidenceSince(xs, delta, j) == Gap(xs, delta)
    ensures Gap(xs, delta) >= 0.0
  {
    MaxIsOverPrefixes(xs, delta);
    forall j | 0 <= j <= |xs|
      ensures EvidenceSince(xs, delta, j) == Cumulative(xs[..j], delta) - Cumulative(xs, delta)
    {
      CumulativeSplit(xs, delta, j);
    }
    hide Cumulative, MaxCumulative, EvidenceSince;
    var j :| 0 <= j <= |xs| && Cumulative(xs[..j], delta) == MaxCumulative(xs, delta);
    assert EvidenceSince(xs, delta, j) == Gap(xs, delta);
    assert EvidenceSince(xs, delta, |xs|) == 0.0 by { NoEvidenceAtEnd(xs, delta); }
  }

  /** Some past point has collected more evidence than `threshold` since. */
  ghost predicate MoreEvidenceThan(xs: seq<real>, delta: real, threshold: real) {
    exists j :: 0 <= j <= |xs| && EvidenceSince(xs, delta, j) > threshold
  }

  /** The alarm needs both: the floor is reached, and some past point has collected more evidence than the
      threshold since.  Below the floor nothing raises it. */
  lemma AlarmMeans(xs: seq<real>, delta: real, threshold: real, minSamples: int)
    ensures Alarm(xs, delta, threshold, minSamples) <==>
            |xs| >= minSamples && MoreEvidenceThan(xs, delta, threshold)
    ensures |xs| < minSamples ==> !Alarm(xs, delta, threshold, minSamples)
  {
    GapIsMostEvidence(xs, delta);
    hide Gap, EvidenceSince;
  }

  lemma NoEvidenceAtEnd(xs: seq<real>, delta: real)
    ensures EvidenceSince(xs, delta, |xs|) == 0.0
  {}

  // ---------------------------------------------------------------- no false alarms

  lemma {:induction false} NoEvidenceNoGap(xs: seq<real>, delta: real, j: nat)
    requires j <= |xs| && forall i :: j <= i < |xs| ==> Evidence(xs, delta, i) <= 0.0
    ensures EvidenceSince(xs, delta, j) <= 0.0
    decreases |xs| - j
  {
    if j < |xs| {
      NoEvidenceNoGap(xs, delta, j + 1);
    }
  }

  lemma {:induction false} SumBelow(xs: seq<real>, top: real)
    requires forall i :: 0 <= i < |xs| ==> xs[i] <= top
    ensures Sum(xs) <= Multiple(top, |xs|)
  {
    hide Multiple;
    NoMultiple(top);
    if xs != [] {
      SumBelow(xs[..|xs| - 1], top);
      OneMore(top, |xs|);
    }
  }

  lemma MeanBelow(xs: seq<real>, top: real)
    requires xs != [] && forall i :: 0 <= i < |xs| ==> xs[i] <= top
    ensures Mean(xs) <= top
  {
    SumBelow(xs, top);
    QuotientBelow(Sum(xs), |xs| as real, top);
  }

  lemma QuotientBelow(s: real, c: real, top: real)
    requires c > 0.0 && s <= top * c
    ensures s / c <= top
  {
    Ordered(s / c, top, c, s, top * c);
  }

  lemma Ordered(q: real, top: real, c: real, qc: real, topc: real)
    requires c > 0.0 && qc == q * c && topc == top * c && qc <= topc
    ensures q <= top
  {}

  /** No observation lies more than `delta` below an earlier one. */
  ghost predicate NeverFallsBy(xs: seq<real>, delta: real) {
    forall i, j :: 0 <= i <= j < |xs| ==> xs[i] <= xs[j] + delta
  }

  /** Such a stream never alarms, whatever the floor.  That covers every stream that never
      decreases and every stream that stays inside a band of width `delta`. */
  lemma SteadyStreamNeverAlarms(xs: seq<real>, delta: real, threshold: real, minSamples: int)
    requires NeverFallsBy(xs, delta) && threshold >= 0.0
    ensures !Alarm(xs, delta, threshold, minSamples)
  {
    forall i | 0 <= i < |xs| ensures Evidence(xs, delta, i) <= 0.0 {
      MeanBelow(xs[..i + 1], xs[i] + delta);
    }
    hide Evidence;
    GapIsMostEvidence(xs, delta);
    var j :| 0 <= j <= |xs| && EvidenceSince(xs, delta, j) == Gap(xs, delta);
    NoEvidenceNoGap(xs, delta, j);
  }

  lemma NonDecreasingIsSteady(xs: seq<real>, delta: real)
    requires delta >= 0.0 && forall i, j :: 0 <= i <= j < |xs| ==> xs[i] <= xs[j]
    ensures NeverFallsBy(xs, delta)
  {
    forall i, j | 0 <= i <= j < |xs| ensures xs[i] <= xs[j] + delta {
      assert xs[i] <= xs[j];
    }
  }

  lemma BandIsSteady(xs: seq<real>, delta: real, low: real)
    requires forall i :: 0 <= i < |xs| ==> low <= xs[i] <= low + delta
    ensures NeverFallsBy(xs, delta)
  {}

  // ---------------------------------------------------------------- drift is found

  lemma SumOfAppend(xs: seq<real>, x: real)
    ensures Sum(xs + [x]) == Sum(xs) + x
  {
    assert (xs + [x])[..|xs|] == xs;
  }

  lemma NoMultiple(x: real)
    ensures Multiple(x, 0) == 0.0
  {}

  lemma OneMore(x: real, t: nat)
    requires t > 0
    ensures Multiple(x, t) == Multiple(x, t - 1) + x
  {
    Spread((t - 1) as real, 1.0, x);
  }

  lemma {:induction false} SumAfterDrop(past: seq<real>, low: real, t: nat)
    ensures Sum(past + Repeat(low, t)) == Sum(past) + Multiple(low, t)
  {
    hide Multiple, Sum;
    if t == 0 {
      assert past + Repeat(low, 0) == past;
      NoMultiple(low);
    } else {
      SumAfterDrop(past, low, t - 1);
      assert past + Repeat(low, t) == (past + Repeat(low, t - 1)) + [low];
      SumOfAppend(past + Repeat(low, t - 1), low);
      OneMore(low, t);
    }
  }

  /** After t low observations the mean still lies at least half a drop above them. */
  lemma MeanStaysAbove(past: seq<real>, d: real, t: nat)
    requires 0 < t <= |past| && d >= 0.0
    ensures Mean(past + Repeat(Mean(past) - d, t)) >= Mean(past) - d + d / 2.0
  {
    var mu, m := Mean(past), |past|;
    SumAfterDrop(past, mu - d, t);
    SumIsMean(past);
    hide Sum;
    HalfDrop(mu, d, m as real, t as real, Sum(past) + Multiple(mu - d, t));
  }

  lemma SumIsMean(xs: seq<real>)
    requires xs != []
    ensures Mean(xs) * (|xs| as real) == Sum(xs)
  {}

  lemma HalfDrop(mu: real, d: real, m: real, t: real, s: real)
    requires 0.0 < t <= m && d >= 0.0
    requires s == mu * m + (mu - d) * t
    ensures s / (m + t) >= mu - d + d / 2.0
  {
    var half := mu - d / 2.0;
    assert s == half * (m + t) + (d / 2.0) * (m - t);
    ProductNonNegative(d / 2.0, m - t);
    QuotientAbove(s, m + t, half);
  }

  lemma ProductNonNegative(a: real, b: real)
    requires a >= 0.0 && b >= 0.0
    ensures a * b >= 0.0
  {}

  lemma QuotientAbove(s: real, c: real, low: real)
    requires c > 0.0 && s >= low * c
    ensures s / c >= low
  {
    QuotientBelow(-s, c, -low);
    assert -s / c == -(s / c);
  }

  lemma {:induction false} EvidenceAddsUp(xs: seq<real>, delta: real, j: nat, least: real)
    requires j <= |xs| && forall i :: j <= i < |xs| ==> Evidence(xs, delta, i) >= least
    ensures EvidenceSince(xs, delta, j) >= Multiple(least, |xs| - j)
    decreases |xs| - j
  {
    hide Multiple, Evidence;
    NoMultiple(least);
    if j < |xs| {
      EvidenceAddsUp(xs, delta, j + 1, least);
      OneMore(least, |xs| - j);
    }
  }

  /** Detection bound: after any m >= min_samples observations, a lasting drop by d below
      their mean raises the alarm at every step T <= m with T * (d/2 - delta) > threshold. */
  lemma LastingDropIsDetected(past: seq<real>, d: real, steps: nat, delta: real, threshold: real, minSamples: int)
    requires |past| >= minSamples && 0 < steps <= |past| && d >= 0.0
    requires Multiple(d / 2.0 - delta, steps) > threshold
    ensures Alarm(past + Repeat(Mean(past) - d, steps), delta, threshold, minSamples)
  {
    var m, low := |past|, Mean(past) - d;
    var xs := past + Repeat(low, steps);
    hide Multiple, Mean, Gap, EvidenceSince, Evidence;
    forall i | m <= i < |xs| ensures Evidence(xs, delta, i) >= d / 2.0 - delta {
      EvidenceAfterDrop(past, d, steps, delta, i);
    }
    EvidenceAddsUp(xs, delta, m, d / 2.0 - delta);
    GapIsMostEvidence(xs, delta);
    assert EvidenceSince(xs, delta, m) <= Gap(xs, delta);
  }

  lemma EvidenceAfterDrop(past: seq<real>, d: real, steps: nat, delta: real, i: nat)
    requires |past| <= i < |past| + steps && steps <= |past| && d >= 0.0
    ensures Evidence(past + Repeat(Mean(past) - d, steps), delta, i) >= d / 2.0 - delta
  {
    var low := Mean(past) - d;
    hide Mean;
    var xs := past + Repeat(low, steps);
    assert xs[i] == low;
    assert xs[..i + 1] == past + Repeat(low, i + 1 - |past|);
    MeanStaysAbove(past, d, i + 1 - |past|);
  }
}
