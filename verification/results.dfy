/**
 * The numbers the results screen derives from a finished session: accuracy,
 * mean hit time, recoil control and the overshoot/undershoot sensitivity
 * suggestion.
 */
module Results {

  /** `xs.reduce((a, b) => a + b, 0)`: a left fold, so the last element is added last. */
  function Sum(xs: seq<real>): (r: real)
    ensures |xs| == 0 ==> r == 0.0
    ensures |xs| == 1 ==> r == xs[0]
  {
    if |xs| == 0 then 0.0 else Sum(xs[..|xs| - 1]) + xs[|xs| - 1]
  }

  /** Mean of the hit times, 0 when there are none. */
  function Mean(xs: seq<real>): (r: real)
    ensures |xs| == 0 ==> r == 0.0
    ensures |xs| > 0 ==> r * (|xs| as real) == Sum(xs)
  {
    if |xs| > 0 then Sum(xs) / (|xs| as real) else 0.0
  }

  /** Bounding every element bounds the sum by the count times the bound. */
  lemma {:induction false} SumBounds(xs: seq<real>, lo: real, hi: real)
    requires forall i :: 0 <= i < |xs| ==> lo <= xs[i] <= hi
    ensures lo * (|xs| as real) <= Sum(xs) <= hi * (|xs| as real)
    decreases |xs|
  {
    if |xs| > 0 {
      var init := xs[..|xs| - 1];
      assert forall i :: 0 <= i < |init| ==> init[i] == xs[i];
      SumBounds(init, lo, hi);
      assert lo * (|xs| as real) == lo * (|init| as real) + lo;
      assert hi * (|xs| as real) == hi * (|init| as real) + hi;
    }
  }

  /** The mean lies between any lower and upper bound of the hit times. */
  lemma MeanBetween(xs: seq<real>, lo: real, hi: real)
    requires |xs| > 0
    requires forall i :: 0 <= i < |xs| ==> lo <= xs[i] <= hi
    ensures lo <= Mean(xs) <= hi
  {
    SumBounds(xs, lo, hi);
    var n := |xs| as real;
    assert Mean(xs) * n == Sum(xs);
    ScaledCompare(Mean(xs), n, lo);
    ScaledCompare(Mean(xs), n, hi);
  }

  /** Accuracy in percent: hits over all counted clicks, 0 before any click. */
  function Accuracy(score: nat, misses: nat): (r: real)
    ensures 0.0 <= r <= 100.0
    ensures score + misses == 0 ==> r == 0.0
    ensures score + misses > 0 ==> r * ((score + misses) as real) == (score as real) * 100.0
  {
    if score + misses > 0 then ((score as real) / ((score + misses) as real)) * 100.0 else 0.0
  }

  /** Accuracy is 100 exactly when there were hits and no misses, and 0 exactly when there were no hits. */
  lemma AccuracyExtremes(score: nat, misses: nat)
    ensures Accuracy(score, misses) == 100.0 <==> score > 0 && misses == 0
    ensures Accuracy(score, misses) == 0.0 <==> score == 0
  {
    var a := Accuracy(score, misses);
    var n := (score + misses) as real;
    if score + misses > 0 {
      assert a * n == (score as real) * 100.0;
      if a == 100.0 {
        assert 100.0 * n == (score as real) * 100.0;
      }
      if a == 0.0 {
        assert (score as real) * 100.0 == 0.0;
      }
    }
  }

  /** Recoil control in percent: time on target over total firing time, 0 if never fired. */
  function RecoilControl(timeOnTarget: real, totalFiringTime: real): (r: real)
    ensures totalFiringTime <= 0.0 ==> r == 0.0
    ensures totalFiringTime > 0.0 ==> r * totalFiringTime == timeOnTarget * 100.0
    ensures 0.0 <= timeOnTarget <= totalFiringTime ==> 0.0 <= r <= 100.0
  {
    if totalFiringTime > 0.0 then (timeOnTarget / totalFiringTime) * 100.0 else 0.0
  }

  /** The four messages of the "Analyze My Aim" panel. */
  datatype Suggestion = NotEnoughData | LowerSensitivity | RaiseSensitivity | Balanced

  /** Fewer classified misses than this give no suggestion. */
  const MinMisses: nat := 5

  /**
   * getSensitivitySuggestion.  The ratio thresholds 0.65 and 0.35 are
   * compared by cross-multiplication (13/20 and 7/20), which keeps both
   * boundaries on the "balanced" side as the strict comparisons do.
   */
  function Suggest(overshoots: nat, undershoots: nat): (r: Suggestion)
    ensures r == NotEnoughData <==> overshoots + undershoots < MinMisses
  {
    var total := overshoots + undershoots;
    if total < MinMisses then NotEnoughData
    else if 20 * overshoots > 13 * total then LowerSensitivity
    else if 20 * overshoots < 7 * total then RaiseSensitivity
    else Balanced
  }

  /** The suggestion agrees with the program's real-valued ratio tests, boundaries included. */
  lemma SuggestMatchesRatio(overshoots: nat, undershoots: nat)
    requires overshoots + undershoots >= MinMisses
    ensures var ratio := (overshoots as real) / ((overshoots + undershoots) as real);
      && (Suggest(overshoots, undershoots) == LowerSensitivity <==> ratio > 0.65)
      && (Suggest(overshoots, undershoots) == RaiseSensitivity <==> ratio < 0.35)
      && (Suggest(overshoots, undershoots) == Balanced <==> 0.35 <= ratio <= 0.65)
  {
    var total := (overshoots + undershoots) as real;
    var o := overshoots as real;
    DivCompare(o, total, 0.65);
    DivCompare(o, total, 0.35);
    assert (20 * overshoots) as real == 20.0 * o;
    assert (13 * (overshoots + undershoots)) as real == 13.0 * total;
    assert (7 * (overshoots + undershoots)) as real == 7.0 * total;
  }

  /** Comparing a quotient with a bound is comparing the dividend with the scaled bound. */
  lemma DivCompare(x: real, n: real, bound: real)
    requires n > 0.0
    ensures x / n > bound <==> x > bound * n
    ensures x / n < bound <==> x < bound * n
  {
    assert (x / n) * n == x;
    ScaledCompare(x / n, n, bound);
  }

  /** Multiplying by a positive number keeps strict comparisons. */
  lemma ScaledCompare(x: real, n: real, bound: real)
    requires n > 0.0
    ensures x > bound <==> x * n > bound * n
    ensures x < bound <==> x * n < bound * n
  {
    if x > bound {
      assert (x - bound) * n > 0.0;
    } else if x < bound {
      assert (bound - x) * n > 0.0;
    }
  }

  /** Swapping overshoots and undershoots swaps the two corrective suggestions. */
  lemma SuggestSymmetric(overshoots: nat, undershoots: nat)
    ensures Suggest(overshoots, undershoots) == LowerSensitivity
       <==> Suggest(undershoots, overshoots) == RaiseSensitivity
    ensures Suggest(overshoots, undershoots) == Balanced
       <==> Suggest(undershoots, overshoots) == Balanced
  {
  }
}
