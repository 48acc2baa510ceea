/**
 * The frame visualizer's navigation: a cyclic index over the extracted
 * frames and the lookup of the model's visual data for the shown frame.
 */
module FrameNav {
  import opened Wrappers

  /** Crosshair position as fractions of the frame. */
  datatype Point = Point(x: real, y: real)

  /** An enemy bounding box as fractions of the frame. */
  datatype Box = Box(x: real, y: real, width: real, height: real)

  /** What the analysis reported for one frame; `frameIndex` is a JSON number. */
  datatype VisualData = VisualData(frameIndex: real, crosshair: Option<Point>, enemies: seq<Box>)

  /** The visualizer opens on the first frame. */
  const StartIndex: int := 0

  /** goToNext over `n` frames: one forward, the last wrapping to the first. */
  function Next(i: int, n: int): (r: int)
    ensures 0 < n && 0 <= i < n ==> 0 <= r < n && r == (i + 1) % n
  {
    if i == n - 1 then 0 else i + 1
  }

  /** goToPrevious over `n` frames: one back, the first wrapping to the last. */
  function Previous(i: int, n: int): (r: int)
    ensures 0 < n && 0 <= i < n ==> 0 <= r < n && r == (i + n - 1) % n
  {
    if i == 0 then n - 1 else i - 1
  }

  /** Forward and back undo each other. */
  lemma NextPreviousInverse(i: int, n: int)
    requires 0 < n && 0 <= i < n
    ensures Previous(Next(i, n), n) == i
    ensures Next(Previous(i, n), n) == i
  {
  }

  /** `k` presses of "Next". */
  function NextTimes(i: int, n: int, k: nat): int
    decreases k
  {
    if k == 0 then i else NextTimes(Next(i, n), n, k - 1)
  }

  /** `k` presses of "Next" advance the index by `k` modulo `n`. */
  lemma {:induction false} NextTimesShifts(i: int, n: int, k: nat)
    requires 0 < n && 0 <= i < n
    ensures NextTimes(i, n, k) == (i + k) % n
    decreases k
  {
    if k > 0 {
      var j := Next(i, n);
      NextTimesShifts(j, n, k - 1);
      if i == n - 1 {
        assert i + k == (k - 1) + n;
        ModShift(k - 1, n);
      }
    }
  }

  lemma ModShift(x: int, n: int)
    requires 0 <= x && 0 < n
    ensures (x + n) % n == x % n
  {
    var q := x / n;
    var r := x % n;
    assert x + n == (q + 1) * n + r;
    ModUnique(x + n, n, q + 1, r);
  }

  /** A remainder in range is the remainder. */
  lemma ModUnique(a: int, n: int, q: int, r: int)
    requires 0 < n && 0 <= r < n && a == q * n + r
    ensures a % n == r
  {
    var d := q - a / n;
    assert d * n == a % n - r;
  }

  /** Pressing "Next" once per frame comes back to the starting frame. */
  lemma FullCycle(i: int, n: int)
    requires 0 < n && 0 <= i < n
    ensures NextTimes(i, n, n) == i
  {
    NextTimesShifts(i, n, n);
    ModShift(i, n);
  }

  /** `visualData.find(d => d.frame_index === currentIndex)`: the first entry for the shown frame. */
  function FrameData(data: seq<VisualData>, index: int): (r: Option<VisualData>)
    ensures r.None? <==> forall j :: 0 <= j < |data| ==> data[j].frameIndex != index as real
    ensures r.Some? ==> exists j :: (0 <= j < |data| && data[j] == r.value
      && data[j].frameIndex == index as real
      && forall m :: 0 <= m < j ==> data[m].frameIndex != index as real)
    decreases |data|
  {
    if |data| == 0 then None
    else if data[0].frameIndex == index as real then Some(data[0])
    else
      var r := FrameData(data[1..], index);
      assert forall j :: 1 <= j < |data| ==> data[j] == data[1..][j - 1];
      r
  }
}
