/**
 * The aim-trainer target and the three pure operations on it: spawning a
 * target in the play area, the classic per-frame bounce, and the recoil-mode
 * per-frame drift.  `Math.random()` is a parameter in [0, 1), the random
 * direction is a given (cos, sin) pair, and JS numbers are `real`.
 */
module Targets {
  import opened Wrappers

  /** A target: top-left corner, diameter, spawn time and velocity in pixels per frame. */
  datatype Target = Target(x: real, y: real, size: real, createdAt: real, dx: real, dy: real)

  /** The "Target Movement" setting. */
  datatype Speed = Stationary | Slow | Medium | Fast

  function Abs(r: real): real {
    if r < 0.0 then -r else r
  }

  function Max(a: real, b: real): real {
    if a < b then b else a
  }

  function Min(a: real, b: real): real {
    if a < b then a else b
  }

  /** A value `Math.random()` can return. */
  predicate IsRandom(r: real) {
    0.0 <= r < 1.0
  }

  /** The target's top-left corner keeps the whole target inside a `width` x `height` area. */
  predicate InArea(t: Target, width: real, height: real) {
    0.0 <= t.x <= width - t.size && 0.0 <= t.y <= height - t.size
  }

  /** The target's centre. */
  function CentreX(t: Target): real { t.x + t.size / 2.0 }
  function CentreY(t: Target): real { t.y + t.size / 2.0 }

  /**
   * The circular hit test `sqrt((px-cx)^2 + (py-cy)^2) < size / 2`, stated
   * without the square root: a square root is never negative, so the test
   * can only pass for a positive radius, and then it is the squared comparison.
   */
  predicate OnTarget(t: Target, px: real, py: real): (b: bool)
    ensures b ==> Abs(px - CentreX(t)) < t.size / 2.0 && Abs(py - CentreY(t)) < t.size / 2.0
  {
    var r := t.size / 2.0;
    var ex := px - CentreX(t);
    var ey := py - CentreY(t);
    r > 0.0 && ex * ex + ey * ey < r * r
  }
  /**
   * The root-free test agrees with the program's `Math.sqrt(dx² + dy²) < size / 2`
   * for the non-negative root `dist` of the squared distance.
   */
  lemma OnTargetIsDistance(t: Target, px: real, py: real, dist: real)
    requires dist >= 0.0
    requires dist * dist == (px - CentreX(t)) * (px - CentreX(t)) + (py - CentreY(t)) * (py - CentreY(t))
    ensures OnTarget(t, px, py) <==> dist < t.size / 2.0
  {
    var r := t.size / 2.0;
    if dist < r {
      assert dist * dist < r * r by {
        assert r * r - dist * dist == (r - dist) * (r + dist);
        MulNonNeg(r - dist, r + dist);
        assert (r - dist) * (r + dist) != 0.0;
      }
    } else if r > 0.0 {
      assert dist * dist >= r * r by {
        assert dist * dist - r * r == (dist - r) * (dist + r);
        MulNonNeg(dist - r, dist + r);
      }
    }
  }

  lemma MulNonNeg(a: real, b: real)
    ensures a >= 0.0 && b >= 0.0 ==> a * b >= 0.0
  {
  }


  /** Pixels per frame for each movement setting. */
  function SpeedValue(s: Speed): (v: real)
    ensures v == 0.0 <==> s == Stationary
    ensures s != Stationary ==> 1.5 <= v <= 5.0
  {
    match s
    case Stationary => 0.0
    case Slow => 1.5
    case Medium => 3.0
    case Fast => 5.0
  }

  lemma ScaleUnit(r: real, a: real)
    ensures 0.0 <= r <= 1.0 && 0.0 <= a ==> 0.0 <= r * a <= a
  {
    if 0.0 <= r <= 1.0 && 0.0 <= a {
      assert a - r * a == (1.0 - r) * a;
    }
  }

  /**
   * spawnTarget: nothing while the play area has no size; otherwise a target
   * of the configured size at a random position, created now, moving in the
   * given direction at the configured speed.
   */
  function Spawn(width: real, height: real, size: real, speed: Speed,
                 randX: real, randY: real, cosA: real, sinA: real, now: real): (r: Option<Target>)
    ensures r.None? <==> width == 0.0 || height == 0.0
    ensures r.Some? ==> r.value.size == size && r.value.createdAt == now
    ensures r.Some? && IsRandom(randX) && size <= width ==> 0.0 <= r.value.x <= width - size
    ensures r.Some? && IsRandom(randY) && size <= height ==> 0.0 <= r.value.y <= height - size
    ensures r.Some? && speed == Stationary ==> r.value.dx == 0.0 && r.value.dy == 0.0
    ensures r.Some? && cosA * cosA + sinA * sinA == 1.0 ==>
      r.value.dx * r.value.dx + r.value.dy * r.value.dy == SpeedValue(speed) * SpeedValue(speed)
    ensures r.Some? && cosA * cosA + sinA * sinA == 1.0 ==>
      (r.value.dx == 0.0 && r.value.dy == 0.0 <==> speed == Stationary)
    ensures r.Some? && cosA * cosA + sinA * sinA == 1.0 ==>
      r.value.dx * cosA + r.value.dy * sinA == SpeedValue(speed)
  {
    if width == 0.0 || height == 0.0 then None
    else
      var v := SpeedValue(speed);
      var dx := if v > 0.0 then cosA * v else 0.0;
      var dy := if v > 0.0 then sinA * v else 0.0;
      assert dx * dx + dy * dy == (cosA * cosA + sinA * sinA) * (v * v);
      var spanX := width - size;
      var spanY := height - size;
      var x := randX * spanX;
      var y := randY * spanY;
      ScaleUnit(randX, spanX);
      ScaleUnit(randY, spanY);
      Some(Target(x, y, size, now, dx, dy))
  }

  /**
   * Every position of the area at which a whole target fits is the spawn
   * position for some pair of random factors in [0, 1).
   */
  lemma SpawnReachesArea(width: real, height: real, size: real, speed: Speed,
                         x: real, y: real, cosA: real, sinA: real, now: real)
    requires 0.0 <= size < width && size < height
    requires 0.0 <= x < width - size && 0.0 <= y < height - size
    ensures IsRandom(x / (width - size)) && IsRandom(y / (height - size))
    ensures Spawn(width, height, size, speed, x / (width - size), y / (height - size), cosA, sinA, now).Some?
    ensures Spawn(width, height, size, speed, x / (width - size), y / (height - size), cosA, sinA, now).value.x == x
    ensures Spawn(width, height, size, speed, x / (width - size), y / (height - size), cosA, sinA, now).value.y == y
  {
    UnitQuotient(x, width - size);
    UnitQuotient(y, height - size);
    var t := Spawn(width, height, size, speed, x / (width - size), y / (height - size), cosA, sinA, now);
    assert t.value.x == (x / (width - size)) * (width - size);
    assert t.value.y == (y / (height - size)) * (height - size);
  }

  /** Dividing a point of `[0, d)` by `d` gives a factor in [0, 1) that scales back to it. */
  lemma UnitQuotient(x: real, d: real)
    requires 0.0 <= x < d
    ensures IsRandom(x / d) && (x / d) * d == x
  {
    var q := x / d;
    assert q * d == x;
    assert (q - 1.0) * d == x - d;
  }

  /**
   * spawnRecoilTarget: a still target centred in the play area.
   */
  function SpawnCentred(width: real, height: real, size: real, now: real): (r: Target)
    ensures CentreX(r) == width / 2.0 && CentreY(r) == height / 2.0
    ensures r.size == size && r.createdAt == now && r.dx == 0.0 && r.dy == 0.0
    ensures size <= width && size <= height ==> InArea(r, width, height)
  {
    Target((width - size) / 2.0, (height - size) / 2.0, size, now, 0.0, 0.0)
  }

  /** One axis of the classic bounce: position and velocity after one frame. */
  datatype Axis = Axis(pos: real, vel: real)

  /** The tentative position `p` of a target of diameter `size` touches or crosses an edge of `[0, extent]`. */
  predicate HitsEdge(p: real, size: real, extent: real) {
    p <= 0.0 || p + size >= extent
  }

  /**
   * One axis of the classic per-frame move: step by the velocity; on touching
   * or crossing an edge, reverse the velocity and clamp into the area.
   */
  function BounceAxis(pos: real, vel: real, size: real, extent: real): (r: Axis)
    ensures Abs(r.vel) == Abs(vel)
    ensures !HitsEdge(pos + vel, size, extent) ==> r == Axis(pos + vel, vel)
    ensures HitsEdge(pos + vel, size, extent) ==> r.vel == -vel
    ensures size <= extent ==> 0.0 <= r.pos <= extent - size
    ensures size <= extent && pos + vel <= 0.0 ==> r.pos == 0.0
    ensures size <= extent && pos + vel + size >= extent ==> r.pos == extent - size
  {
    var p := pos + vel;
    if HitsEdge(p, size, extent) then Axis(Max(0.0, Min(p, extent - size)), -vel)
    else Axis(p, vel)
  }

  /** The classic-mode per-frame move of a moving target (no delta-time scaling). */
  function Bounce(t: Target, width: real, height: real): (r: Target)
    ensures r.size == t.size && r.createdAt == t.createdAt
    ensures Abs(r.dx) == Abs(t.dx) && Abs(r.dy) == Abs(t.dy)
    ensures t.size <= width && t.size <= height ==> InArea(r, width, height)
    ensures !HitsEdge(t.x + t.dx, t.size, width) ==> r.x == t.x + t.dx && r.dx == t.dx
    ensures !HitsEdge(t.y + t.dy, t.size, height) ==> r.y == t.y + t.dy && r.dy == t.dy
    ensures HitsEdge(t.x + t.dx, t.size, width) ==> r.dx == -t.dx
    ensures HitsEdge(t.y + t.dy, t.size, height) ==> r.dy == -t.dy
    ensures t.size <= width && t.x + t.dx <= 0.0 ==> r.x == 0.0
    ensures t.size <= width && t.x + t.dx + t.size >= width ==> r.x == width - t.size
    ensures t.size <= height && t.y + t.dy <= 0.0 ==> r.y == 0.0
    ensures t.size <= height && t.y + t.dy + t.size >= height ==> r.y == height - t.size
  {
    var ax := BounceAxis(t.x, t.dx, t.size, width);
    var ay := BounceAxis(t.y, t.dy, t.size, height);
    t.(x := ax.pos, y := ay.pos, dx := ax.vel, dy := ay.vel)
  }

  /** `n` classic frames in a fixed-size area. */
  function BounceFrames(t: Target, width: real, height: real, n: nat): Target
    decreases n
  {
    if n == 0 then t else BounceFrames(Bounce(t, width, height), width, height, n - 1)
  }

  /**
   * However many frames pass, a moving target keeps its speed on each axis
   * and, after the first frame, lies wholly inside an area at least as large
   * as the target.
   */
  lemma {:induction false} BounceFramesKeepSpeedAndArea(t: Target, width: real, height: real, n: nat)
    ensures var r := BounceFrames(t, width, height, n);
      r.size == t.size && Abs(r.dx) == Abs(t.dx) && Abs(r.dy) == Abs(t.dy)
      && (n > 0 && t.size <= width && t.size <= height ==> InArea(r, width, height))
    decreases n
  {
    if n > 0 {
      BounceFramesKeepSpeedAndArea(Bounce(t, width, height), width, height, n - 1);
    }
  }

  /** Upward drift per 60 Hz frame while firing, in pixels. */
  const RecoilStrength: real := 2.5
  /** Full width of the horizontal jitter per 60 Hz frame, in pixels. */
  const Jitter: real := 1.5
  /** Length of one 60 Hz frame in milliseconds. */
  const FrameMs: real := 1000.0 / 60.0

  /** The recoil target after one frame, and whether the pointer is on it. */
  datatype RecoilFrame = RecoilFrame(target: Target, onTarget: bool)

  /**
   * One recoil-mode frame while firing, scaled by the elapsed time: the
   * target climbs by 2.5 px per 60 Hz frame (stopping at the top edge) and
   * jitters sideways by at most 0.75 px per frame either way; then the
   * pointer is tested against the moved target.
   */
  function RecoilStep(t: Target, deltaTime: real, rand: real, mouseX: real, mouseY: real): (r: RecoilFrame)
    ensures r.target.size == t.size && r.target.createdAt == t.createdAt
    ensures r.target.dx == t.dx && r.target.dy == t.dy
    ensures deltaTime >= 0.0 && t.y >= 0.0 ==> r.target.y <= t.y
    ensures r.target.y == Max(0.0, t.y - RecoilStrength * (deltaTime / FrameMs))
    ensures IsRandom(rand) && deltaTime >= 0.0 ==>
      Abs(r.target.x - t.x) <= (Jitter / 2.0) * (deltaTime / FrameMs)
    ensures r.onTarget <==> OnTarget(r.target, mouseX, mouseY)
  {
    var scale := deltaTime / FrameMs;
    var moved := t.(x := Sway(t.x, rand, scale), y := Climb(t.y, scale));
    RecoilFrame(moved, OnTarget(moved, mouseX, mouseY))
  }

  /** The upward drift of one frame of `scale` 60 Hz frames, stopped at the top edge. */
  function Climb(y: real, scale: real): (r: real)
    ensures r >= 0.0
    ensures scale >= 0.0 && y >= 0.0 ==> r <= y
    ensures r > 0.0 ==> r == y - RecoilStrength * scale
    ensures r == 0.0 <==> y - RecoilStrength * scale <= 0.0
  {
    Max(0.0, y + -RecoilStrength * scale)
  }

  /** The sideways jitter of one frame of `scale` 60 Hz frames. */
  function Sway(x: real, rand: real, scale: real): (r: real)
    ensures IsRandom(rand) && scale >= 0.0 ==> Abs(r - x) <= (Jitter / 2.0) * scale
  {
    var u := rand - 0.5;
    var off := u * Jitter * scale;
    JitterBound(u, scale);
    assert IsRandom(rand) ==> -0.5 <= u <= 0.5;
    assert (x + off) - x == off;
    x + off
  }

  /** Total elapsed time of a run of recoil frames, each a (deltaTime, random factor) pair. */
  function Elapsed(frames: seq<(real, real)>): (r: real)
    ensures (forall i :: 0 <= i < |frames| ==> frames[i].0 >= 0.0) ==> r >= 0.0
  {
    if |frames| == 0 then 0.0 else frames[0].0 + Elapsed(frames[1..])
  }

  /** The recoil target after a run of firing frames, the pointer held still. */
  function RecoilRun(t: Target, frames: seq<(real, real)>, mouseX: real, mouseY: real): Target
    decreases |frames|
  {
    if |frames| == 0 then t
    else RecoilRun(RecoilStep(t, frames[0].0, frames[0].1, mouseX, mouseY).target, frames[1..], mouseX, mouseY)
  }

  /**
   * However the elapsed time is cut into frames, the recoil target climbs
   * 2.5 px per 60 Hz frame's worth of firing time and stops at the top edge.
   */
  lemma {:induction false} RecoilRunClimbs(t: Target, frames: seq<(real, real)>, mouseX: real, mouseY: real)
    requires forall i :: 0 <= i < |frames| ==> frames[i].0 >= 0.0
    ensures |frames| > 0 || t.y >= 0.0 ==>
      RecoilRun(t, frames, mouseX, mouseY).y == Max(0.0, t.y - RecoilStrength * (Elapsed(frames) / FrameMs))
    decreases |frames|
  {
    if |frames| > 0 {
      var d := frames[0].0;
      var rest := frames[1..];
      var u := RecoilStep(t, d, frames[0].1, mouseX, mouseY).target;
      assert forall i :: 0 <= i < |rest| ==> rest[i].0 >= 0.0 by {
        forall i | 0 <= i < |rest| ensures rest[i].0 >= 0.0 {
          assert rest[i] == frames[i + 1];
        }
      }
      RecoilRunClimbs(u, rest, mouseX, mouseY);
      var e := Elapsed(rest);
      assert e >= 0.0;
      assert Elapsed(frames) == d + e;
      assert u.y == Max(0.0, t.y - RecoilStrength * (d / FrameMs));
      assert RecoilRun(t, frames, mouseX, mouseY) == RecoilRun(u, rest, mouseX, mouseY);
      assert FrameMs > 0.0;
      var a, b := d / FrameMs, e / FrameMs;
      assert b >= 0.0;
      assert (d + e) / FrameMs == a + b;
      assert RecoilStrength * (a + b) == RecoilStrength * a + RecoilStrength * b;
    }
  }

  lemma JitterBound(u: real, scale: real)
    ensures -0.5 <= u <= 0.5 && scale >= 0.0 ==> Abs(u * Jitter * scale) <= (Jitter / 2.0) * scale
  {
    if !(-0.5 <= u <= 0.5 && scale >= 0.0) {
    } else if u >= 0.0 {
      assert u * Jitter * scale <= 0.5 * Jitter * scale;
    } else {
      assert -(u * Jitter * scale) == (-u) * Jitter * scale;
      assert (-u) * Jitter * scale <= 0.5 * Jitter * scale;
    }
  }
}
