/**
 * The hit-time distribution chart's binning: between 5 and 10 equal-width
 * bins from the fastest to the slowest hit time, each time counted in the
 * bin its offset from the minimum falls in, times past the last edge
 * counted in the last bin.
 */
module Histogram {
  import opened Wrappers

  /** A bin: its lower edge and how many times it holds. */
  datatype Bin = Bin(min: real, count: nat)

  /** A built chart: the observed range, the bin width and the bins. */
  datatype Chart = Chart(lo: real, hi: real, binWidth: real, bins: seq<Bin>)

  /** Fewer hit times than this draw no chart. */
  const MinTimes: nat := 5

  function SeqMin(xs: seq<real>): (m: real)
    requires |xs| > 0
    ensures exists i :: 0 <= i < |xs| && xs[i] == m
    ensures forall i :: 0 <= i < |xs| ==> m <= xs[i]
  {
    if |xs| == 1 then xs[0]
    else
      var rest := SeqMin(xs[1..]);
      assert forall i :: 1 <= i < |xs| ==> xs[i] == xs[1..][i - 1];
      if xs[0] <= rest then xs[0] else rest
  }

  function SeqMax(xs: seq<real>): (m: real)
    requires |xs| > 0
    ensures exists i :: 0 <= i < |xs| && xs[i] == m
    ensures forall i :: 0 <= i < |xs| ==> xs[i] <= m
  {
    if |xs| == 1 then xs[0]
    else
      var rest := SeqMax(xs[1..]);
      assert forall i :: 1 <= i < |xs| ==> xs[i] == xs[1..][i - 1];
      if xs[0] >= rest then xs[0] else rest
  }

  /** `Math.min(10, Math.max(5, Math.floor(n / 3)))`: a third of the times, kept within 5..10. */
  function NumBins(n: nat): (k: nat)
    ensures 5 <= k <= 10
    ensures 5 <= n / 3 <= 10 ==> k == n / 3
    ensures n / 3 < 5 ==> k == 5
    ensures n / 3 > 10 ==> k == 10
  {
    var third := n / 3;
    var atLeastFive := if third < 5 then 5 else third;
    if atLeastFive < 10 then atLeastFive else 10
  }

  /** `(max - min) / numBins || 1`: the range split evenly, or 1 when all times are equal. */
  function BinWidth(lo: real, hi: real, k: nat): (w: real)
    requires lo <= hi && k > 0
    ensures w > 0.0
    ensures lo < hi ==> w * (k as real) == hi - lo
    ensures lo == hi ==> w == 1.0
  {
    var w := (hi - lo) / (k as real);
    if w == 0.0 then 1.0 else w
  }

  /** The exact quotient times the divisor gives back the dividend. */
  lemma QuotientTimes(a: real, w: real)
    requires w > 0.0
    ensures (a / w) * w == a
  {
  }

  /** The lower edge of bin `b`. */
  function Edge(lo: real, w: real, b: int): real {
    lo + (b as real) * w
  }

  /** Edges rise by one bin width per bin. */
  lemma EdgeNext(lo: real, w: real, b: int)
    ensures Edge(lo, w, b + 1) == Edge(lo, w, b) + w
  {
  }

  /** The floor of `a / w` places `a` between two consecutive multiples of `w`. */
  lemma FloorBounds(a: real, w: real)
    requires w > 0.0
    ensures ((a / w).Floor as real) * w <= a < (((a / w).Floor + 1) as real) * w
  {
    var q := a / w;
    var f := q.Floor;
    QuotientTimes(a, w);
    assert (f as real) <= q < (f as real) + 1.0;
    assert (f as real) * w <= q * w;
    var next := (f + 1) as real;
    assert next == (f as real) + 1.0;
    assert q < next;
    assert q * w < next * w;
    assert a < next * w;
  }

  /**
   * The bin a time goes to: `Math.floor((t - min) / binWidth)`, with indices
   * past the last bin moved into the last bin.
   */
  function BinIndex(t: real, lo: real, w: real, k: nat): (i: int)
    requires w > 0.0 && k > 0
    ensures i < k
    ensures t >= lo ==> 0 <= i
    ensures Edge(lo, w, i) <= t
    ensures i < k - 1 ==> t < Edge(lo, w, i + 1)
  {
    var raw := ((t - lo) / w).Floor;
    FloorBounds(t - lo, w);
    if raw >= k then
      assert ((k - 1) as real) * w <= (raw as real) * w;
      k - 1
    else raw
  }

  /** When the times span a range, the slowest time lands in the last bin. */
  lemma MaxInLastBin(lo: real, hi: real, k: nat)
    requires lo < hi && k > 0
    ensures BinIndex(hi, lo, BinWidth(lo, hi, k), k) == k - 1
  {
    var w := BinWidth(lo, hi, k);
    assert (hi - lo) / w == k as real by {
      assert w * (k as real) == hi - lo;
    }
  }

  /** How many of `ts` go to bin `b`: the reference the bin counts are measured against. */
  function Count(ts: seq<real>, lo: real, w: real, k: nat, b: int): nat
    requires w > 0.0 && k > 0
    decreases |ts|
  {
    if |ts| == 0 then 0
    else Count(ts[..|ts| - 1], lo, w, k, b) + (if BinIndex(ts[|ts| - 1], lo, w, k) == b then 1 else 0)
  }

  /** Counting one more time adds one to its bin and nothing to the others. */
  lemma CountStep(ts: seq<real>, j: nat, lo: real, w: real, k: nat)
    requires w > 0.0 && k > 0 && j < |ts|
    ensures forall b :: (Count(ts[..j + 1], lo, w, k, b)
      == Count(ts[..j], lo, w, k, b) + (if BinIndex(ts[j], lo, w, k) == b then 1 else 0))
  {
    assert ts[..j + 1][..j] == ts[..j];
  }

  /** The sum of the bin counts. */
  function Total(bins: seq<Bin>): nat
    decreases |bins|
  {
    if |bins| == 0 then 0 else Total(bins[..|bins| - 1]) + bins[|bins| - 1].count
  }

  /** Incrementing one bin increments the total by one. */
  lemma {:induction false} TotalIncrement(bins: seq<Bin>, b: nat)
    requires b < |bins|
    ensures Total(bins[b := bins[b].(count := bins[b].count + 1)]) == Total(bins) + 1
    decreases |bins|
  {
    var bumped := bins[b := bins[b].(count := bins[b].count + 1)];
    var last := |bins| - 1;
    if b == last {
      assert bumped[..last] == bins[..last];
    } else {
      assert bumped[..last] == bins[..last][b := bins[b].(count := bins[b].count + 1)];
      TotalIncrement(bins[..last], b);
    }
  }

  /** Empty bins with lower edges `lo`, `lo + w`, ... */
  function EmptyBins(lo: real, w: real, k: nat): (bins: seq<Bin>)
    ensures |bins| == k && Total(bins) == 0
    ensures forall b :: 0 <= b < k ==> bins[b] == Bin(Edge(lo, w, b), 0)
    decreases k
  {
    if k == 0 then [] else
      var init := EmptyBins(lo, w, k - 1);
      var bins := init + [Bin(Edge(lo, w, k - 1), 0)];
      assert bins[..k - 1] == init;
      bins
  }

  /**
   * The counting loop: every time increments the bin it belongs to, so each
   * bin ends with its reference count and, when no time lies below the
   * minimum, the counts add up to the number of times.
   */
  method FillBins(ts: seq<real>, lo: real, w: real, k: nat) returns (bins: seq<Bin>)
    requires w > 0.0 && k > 0
    ensures |bins| == k
    ensures forall b :: 0 <= b < k ==> bins[b].min == Edge(lo, w, b)
    ensures forall b :: 0 <= b < k ==> bins[b].count == Count(ts, lo, w, k, b)
    ensures (forall i :: 0 <= i < |ts| ==> lo <= ts[i]) ==> Total(bins) == |ts|
  {
    bins := EmptyBins(lo, w, k);
    var j := 0;
    while j < |ts|
      invariant 0 <= j <= |ts|
      invariant |bins| == k
      invariant forall b :: 0 <= b < k ==> bins[b].min == Edge(lo, w, b)
      invariant forall b :: 0 <= b < k ==> bins[b].count == Count(ts[..j], lo, w, k, b)
      invariant (forall i :: 0 <= i < |ts| ==> lo <= ts[i]) ==> Total(bins) == j
    {
      CountStep(ts, j, lo, w, k);
      var idx := BinIndex(ts[j], lo, w, k);
      if 0 <= idx < k {
        TotalIncrement(bins, idx);
        bins := bins[idx := bins[idx].(count := bins[idx].count + 1)];
      }
      j := j + 1;
    }
    assert ts[..|ts|] == ts;
  }

  /**
   * The chart's binning of the hit times: nothing below five times;
   * otherwise between 5 and 10 bins of positive width with strictly rising
   * edges from the minimum, holding every time exactly once.
   */
  method Build(ts: seq<real>) returns (r: Option<Chart>)
    ensures r.None? <==> |ts| < MinTimes
    ensures r.Some? ==> r.value.lo == SeqMin(ts) && r.value.hi == SeqMax(ts)
    ensures r.Some? ==> |r.value.bins| == NumBins(|ts|) && 5 <= |r.value.bins| <= 10
    ensures r.Some? ==> r.value.binWidth > 0.0
    ensures r.Some? ==> r.value.binWidth == BinWidth(r.value.lo, r.value.hi, |r.value.bins|)
    ensures r.Some? ==> forall b :: 0 <= b < |r.value.bins| ==>
      r.value.bins[b].min == Edge(r.value.lo, r.value.binWidth, b)
    ensures r.Some? ==> forall b :: 0 <= b < |r.value.bins| - 1 ==>
      r.value.bins[b].min < r.value.bins[b + 1].min
    ensures r.Some? ==> forall b :: 0 <= b < |r.value.bins| ==>
      r.value.bins[b].count == Count(ts, r.value.lo, r.value.binWidth, |r.value.bins|, b)
    ensures r.Some? ==> Total(r.value.bins) == |ts|
  {
    if |ts| < MinTimes {
      return None;
    }
    var lo := SeqMin(ts);
    var hi := SeqMax(ts);
    var k := NumBins(|ts|);
    var w := BinWidth(lo, hi, k);
    var bins := FillBins(ts, lo, w, k);
    forall b | 0 <= b < k - 1
      ensures bins[b].min < bins[b + 1].min
    {
      EdgeNext(lo, w, b);
    }
    return Some(Chart(lo, hi, w, bins));
  }
}
