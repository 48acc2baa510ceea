/**
 * The aim-trainer session: the component's React state lifted into one
 * immutable record, and every handler, timer callback and effect of the
 * component as a pure function from record to record.  Timers and the
 * animation-frame loop are an external driver that delivers `Event`s.
 */
module Session {
  import opened Wrappers
  import opened Targets
  import Results

  datatype Phase = Config | Playing | Finished

  datatype Mode = Classic | Recoil

  /** Where a counted miss landed, relative to the target's centre. */
  datatype MissOffset = MissOffset(offsetX: real, offsetY: real)

  /** The choices on the configuration screen. */
  datatype Settings = Settings(mode: Mode, duration: int, targetSize: real, speed: Speed)

  /**
   * The component state.  `lastHitTime` is the time the current target was
   * spawned (the program keeps it in a ref); `mouseX`/`mouseY` are the last
   * pointer position over the play area (also a ref).
   */
  datatype Game = Game(
    phase: Phase,
    settings: Settings,
    target: Option<Target>,
    score: nat,
    misses: nat,
    hitTimes: seq<real>,
    avgHitTime: real,
    missClicks: seq<MissOffset>,
    overshoots: nat,
    undershoots: nat,
    isFiring: bool,
    timeOnTarget: real,
    totalFiringTime: real,
    recoilControl: real,
    timeLeft: int,
    showSuggestion: bool,
    isTargetHit: bool,
    lastHitTime: real,
    mouseX: real,
    mouseY: real)

  /**
   * What the session keeps true between events: one hit time per point,
   * one offset per counted miss, every counted miss classified exactly once,
   * time on target within firing time, and no target or firing outside play.
   */
  predicate Inv(g: Game) {
    && g.score == |g.hitTimes|
    && g.misses == |g.missClicks|
    && g.misses == g.overshoots + g.undershoots
    && 0.0 <= g.timeOnTarget <= g.totalFiringTime
    && (g.phase != Playing ==> g.target.None? && !g.isFiring)
  }

  /** Every statistic of a session at its zero value. */
  predicate Cleared(g: Game) {
    && g.score == 0 && g.misses == 0 && g.overshoots == 0 && g.undershoots == 0
    && g.hitTimes == [] && g.missClicks == [] && g.avgHitTime == 0.0
    && g.target.None? && !g.isTargetHit && !g.isFiring && !g.showSuggestion
    && g.timeOnTarget == 0.0 && g.totalFiringTime == 0.0 && g.recoilControl == 0.0
  }

  /** The state when the trainer is first shown: classic, 30 s, 50 px, stationary. */
  function Initial(): (g: Game)
    ensures g.phase == Config && Inv(g) && Cleared(g)
    ensures g.timeLeft == g.settings.duration == 30
    ensures g.settings == Settings(Classic, 30, 50.0, Stationary)
  {
    Game(Config, Settings(Classic, 30, 50.0, Stationary), None, 0, 0, [], 0.0, [], 0, 0,
         false, 0.0, 0.0, 0.0, 30, false, false, 0.0, 0.0, 0.0)
  }

  /** resetGameStats: clear every statistic and rewind the clock to the chosen duration. */
  function ResetStats(g: Game): (r: Game)
    ensures Cleared(r) && Inv(r)
    ensures r.timeLeft == g.settings.duration
    ensures r.phase == g.phase && r.settings == g.settings
    ensures r.lastHitTime == g.lastHitTime && r.mouseX == g.mouseX && r.mouseY == g.mouseY
  {
    g.(score := 0, misses := 0, overshoots := 0, undershoots := 0,
       timeLeft := g.settings.duration, hitTimes := [], avgHitTime := 0.0,
       showSuggestion := false, target := None, missClicks := [], isTargetHit := false,
       isFiring := false, timeOnTarget := 0.0, totalFiringTime := 0.0, recoilControl := 0.0)
  }

  /** startGame: reset the statistics and begin playing. */
  function StartGame(g: Game): (r: Game)
    ensures r.phase == Playing && Cleared(r) && Inv(r)
    ensures r.timeLeft == g.settings.duration && r.settings == g.settings
  {
    ResetStats(g).(phase := Playing)
  }

  /** Starting forgets the previous session entirely: only the settings and the two refs carry over. */
  lemma StartForgetsHistory(g1: Game, g2: Game)
    requires g1.settings == g2.settings && g1.lastHitTime == g2.lastHitTime
    requires g1.mouseX == g2.mouseX && g1.mouseY == g2.mouseY
    ensures StartGame(g1) == StartGame(g2)
    ensures StartGame(StartGame(g1)) == StartGame(g1)
  {
  }

  /** The effect run when play begins: recoil mode puts a still target in the middle of the area. */
  function EnterPlaying(g: Game, width: real, height: real, now: real): (r: Game)
    ensures g.phase == Playing && g.settings.mode == Recoil ==>
      r == g.(target := r.target) && r.target.Some?
      && CentreX(r.target.value) == width / 2.0 && CentreY(r.target.value) == height / 2.0
      && r.target.value.size == g.settings.targetSize
    ensures g.phase == Playing && g.settings.mode == Recoil ==>
      r.target == Some(SpawnCentred(width, height, g.settings.targetSize, now))
    ensures !(g.phase == Playing && g.settings.mode == Recoil) ==> r == g
    ensures Inv(g) ==> Inv(r)
  {
    if g.phase == Playing && g.settings.mode == Recoil then
      g.(target := Some(SpawnCentred(width, height, g.settings.targetSize, now)))
    else g
  }

  /**
   * spawnTarget, called from the respawn timers.  The play area is only
   * mounted while playing, so outside play nothing happens; an area with no
   * size yet spawns nothing either.
   */
  function SpawnClassic(g: Game, width: real, height: real,
                        randX: real, randY: real, cosA: real, sinA: real, now: real): (r: Game)
    ensures g.phase != Playing || width == 0.0 || height == 0.0 ==> r == g
    ensures g.phase == Playing && width != 0.0 && height != 0.0 ==>
      && r == g.(target := r.target, lastHitTime := now)
      && r.target.Some? && r.target.value.createdAt == now
      && r.target.value.size == g.settings.targetSize
      && (g.settings.speed == Stationary ==> r.target.value.dx == 0.0 && r.target.value.dy == 0.0)
      && ((IsRandom(randX) && IsRandom(randY) && g.settings.targetSize <= width
           && g.settings.targetSize <= height) ==> InArea(r.target.value, width, height))
    ensures g.phase == Playing ==>
      r.target == (if width == 0.0 || height == 0.0 then g.target
                   else Spawn(width, height, g.settings.targetSize, g.settings.speed, randX, randY, cosA, sinA, now))
    ensures Inv(g) ==> Inv(r)
  {
    if g.phase != Playing then g
    else
      match Spawn(width, height, g.settings.targetSize, g.settings.speed, randX, randY, cosA, sinA, now)
      case None => g
      case Some(t) => g.(target := Some(t), lastHitTime := now)
  }

  /** The 300 ms respawn timer's condition: a classic game in play with time left and no target. */
  predicate RespawnDue(g: Game) {
    g.phase == Playing && g.target.None? && g.timeLeft > 0 && g.settings.mode == Classic
  }

  /** The 300 ms respawn timer firing. */
  function RespawnIfDue(g: Game, width: real, height: real,
                        randX: real, randY: real, cosA: real, sinA: real, now: real): (r: Game)
    ensures !RespawnDue(g) ==> r == g
    ensures RespawnDue(g) && width != 0.0 && height != 0.0 ==> r.target.Some? && r.lastHitTime == now
    ensures RespawnDue(g) ==> r == SpawnClassic(g, width, height, randX, randY, cosA, sinA, now)
    ensures Inv(g) ==> Inv(r)
  {
    if RespawnDue(g) then SpawnClassic(g, width, height, randX, randY, cosA, sinA, now) else g
  }

  /** A click on the game area outside the target counts as a miss only in these circumstances. */
  predicate MissCounts(g: Game) {
    g.settings.mode == Classic && g.phase == Playing && g.target.Some? && !g.isTargetHit
  }

  /**
   * handleMissClick: a counted miss records the click's offset from the
   * target's centre and classifies it, horizontally only, as an overshoot
   * (right of centre) or an undershoot.
   */
  function ClickArea(g: Game, clickX: real, clickY: real): (r: Game)
    ensures !MissCounts(g) ==> r == g
    ensures MissCounts(g) ==>
      && r == g.(misses := r.misses, missClicks := r.missClicks,
                 overshoots := r.overshoots, undershoots := r.undershoots)
      && r.misses == g.misses + 1
      && |r.missClicks| == |g.missClicks| + 1 && r.missClicks[..|g.missClicks|] == g.missClicks
      && r.missClicks[|g.missClicks|].offsetX + CentreX(g.target.value) == clickX
      && r.missClicks[|g.missClicks|].offsetY + CentreY(g.target.value) == clickY
      && r.overshoots + r.undershoots == g.overshoots + g.undershoots + 1
      && (r.overshoots == g.overshoots + 1 <==> clickX > CentreX(g.target.value))
      && (r.undershoots == g.undershoots + 1 <==> clickX <= CentreX(g.target.value))
    ensures Inv(g) ==> Inv(r)
  {
    if !MissCounts(g) then g
    else
      var t := g.target.value;
      var cx := CentreX(t);
      var cy := CentreY(t);
      var over := clickX > cx;
      g.(misses := g.misses + 1,
         missClicks := g.missClicks + [MissOffset(clickX - cx, clickY - cy)],
         overshoots := if over then g.overshoots + 1 else g.overshoots,
         undershoots := if over then g.undershoots else g.undershoots + 1)
  }

  /** A click on the target is a hit only in these circumstances. */
  predicate HitCounts(g: Game) {
    g.settings.mode == Classic && !g.isTargetHit && g.target.Some?
  }

  /**
   * handleTargetClick and handleHit: a hit scores one point and records the
   * time since the target spawned; an ignored click is not stopped and
   * reaches the game area, where it is ignored as well.
   */
  function ClickTarget(g: Game, clickX: real, clickY: real, now: real): (r: Game)
    ensures HitCounts(g) ==>
      && r == g.(score := r.score, hitTimes := r.hitTimes, isTargetHit := true)
      && r.score == g.score + 1
      && r.hitTimes == g.hitTimes + [now - g.lastHitTime]
    ensures !HitCounts(g) ==> r == g
    ensures Inv(g) ==> Inv(r)
  {
    if !HitCounts(g) then ClickArea(g, clickX, clickY)
    else g.(isTargetHit := true, score := g.score + 1, hitTimes := g.hitTimes + [now - g.lastHitTime])
  }

  /**
   * The 200 ms timer started by a hit: the hit animation ends and, if the
   * clock showed time left when the hit happened, a new target is spawned.
   */
  function HitTimerFired(g: Game, timeLeftAtHit: int, width: real, height: real,
                         randX: real, randY: real, cosA: real, sinA: real, now: real): (r: Game)
    ensures !r.isTargetHit
    ensures timeLeftAtHit <= 0 || g.phase != Playing ==> r == g.(isTargetHit := false)
    ensures timeLeftAtHit > 0 && g.phase == Playing && width != 0.0 && height != 0.0 ==>
      r.target.Some? && r.target.value.createdAt == now && r.lastHitTime == now
    ensures timeLeftAtHit > 0 ==>
      r == SpawnClassic(g.(isTargetHit := false), width, height, randX, randY, cosA, sinA, now)
    ensures Inv(g) ==> Inv(r)
  {
    var h := g.(isTargetHit := false);
    if timeLeftAtHit > 0 then SpawnClassic(h, width, height, randX, randY, cosA, sinA, now) else h
  }

  /** handleMouseMove: remember the pointer position over the (mounted) play area. */
  function PointerMoved(g: Game, x: real, y: real): (r: Game)
    ensures g.phase == Playing ==> r == g.(mouseX := x, mouseY := y)
    ensures g.phase != Playing ==> r == g
  {
    if g.phase != Playing then g else g.(mouseX := x, mouseY := y)
  }

  /** handleMouseDown: in recoil play, pressing strictly inside the target circle starts firing. */
  function PointerDown(g: Game, x: real, y: real): (r: Game)
    ensures r == g.(isFiring := r.isFiring)
    ensures r.isFiring <==> (g.isFiring
      || (g.settings.mode == Recoil && g.phase == Playing && g.target.Some? && OnTarget(g.target.value, x, y)))
    ensures Inv(g) ==> Inv(r)
  {
    if g.settings.mode != Recoil || g.target.None? || g.phase != Playing then g
    else if OnTarget(g.target.value, x, y) then g.(isFiring := true)
    else g
  }

  /** handleMouseUp and handleMouseLeave: in recoil mode, releasing or leaving stops firing. */
  function PointerReleased(g: Game): (r: Game)
    ensures r == g.(isFiring := r.isFiring)
    ensures g.settings.mode == Recoil ==> !r.isFiring
    ensures g.settings.mode == Classic ==> r == g
    ensures Inv(g) ==> Inv(r)
  {
    if g.settings.mode == Recoil then g.(isFiring := false) else g
  }

  /**
   * One animation frame: a moving classic target bounces; a recoil target
   * drifts while firing, and the firing time and the time the pointer spent
   * strictly inside the target grow by the frame's duration.
   */
  function AnimationFrame(g: Game, deltaTime: real, rand: real, width: real, height: real): (r: Game)
    ensures r == g.(target := r.target, timeOnTarget := r.timeOnTarget, totalFiringTime := r.totalFiringTime)
    ensures g.phase != Playing || g.target.None? ==> r == g
    ensures g.settings.mode == Classic && g.settings.speed == Stationary ==> r == g
    ensures g.settings.mode == Recoil && !g.isFiring ==> r == g
    ensures g.settings.mode == Classic ==>
      r.timeOnTarget == g.timeOnTarget && r.totalFiringTime == g.totalFiringTime
    ensures (g.phase == Playing && g.target.Some? && g.settings.mode == Classic && g.settings.speed != Stationary
      && g.target.value.size <= width && g.target.value.size <= height) ==>
      r.target.Some? && InArea(r.target.value, width, height)
    ensures g.phase == Playing && g.target.Some? && g.settings.mode == Classic && g.settings.speed != Stationary ==>
      r.target == Some(Bounce(g.target.value, width, height))
    ensures g.phase == Playing && g.target.Some? && g.settings.mode == Recoil && g.isFiring ==>
      r.target == Some(RecoilStep(g.target.value, deltaTime, rand, g.mouseX, g.mouseY).target)
    ensures g.phase == Playing && g.target.Some? && g.settings.mode == Recoil && g.isFiring ==>
      && r.target.Some?
      && r.totalFiringTime == g.totalFiringTime + deltaTime
      && (OnTarget(r.target.value, g.mouseX, g.mouseY) ==> r.timeOnTarget == g.timeOnTarget + deltaTime)
      && (!OnTarget(r.target.value, g.mouseX, g.mouseY) ==> r.timeOnTarget == g.timeOnTarget)
    ensures Inv(g) && deltaTime >= 0.0 ==> Inv(r)
  {
    if g.phase != Playing || g.target.None? then g
    else
      var t := g.target.value;
      if g.settings.mode == Classic && g.settings.speed != Stationary then
        g.(target := Some(Bounce(t, width, height)))
      else if g.settings.mode == Recoil && g.isFiring then
        var f := RecoilStep(t, deltaTime, rand, g.mouseX, g.mouseY);
        g.(target := Some(f.target),
           timeOnTarget := g.timeOnTarget + (if f.onTarget then deltaTime else 0.0),
           totalFiringTime := g.totalFiringTime + deltaTime)
      else g
  }

  /** The 1 Hz clock while playing: one second off, never below zero. */
  function ClockTick(g: Game): (r: Game)
    ensures r == g.(timeLeft := r.timeLeft)
    ensures g.phase != Playing ==> r == g
    ensures g.phase == Playing && g.timeLeft > 0 ==> r.timeLeft == g.timeLeft - 1
    ensures g.phase == Playing && g.timeLeft <= 0 ==> r.timeLeft == 0
  {
    if g.phase != Playing then g
    else g.(timeLeft := if g.timeLeft > 0 then g.timeLeft - 1 else 0)
  }

  /**
   * endGame: the mean hit time and recoil control are computed, play
   * finishes, the target goes away and firing stops.
   */
  function EndGame(g: Game): (r: Game)
    ensures r.phase == Finished && r.target.None? && !r.isFiring
    ensures r == g.(avgHitTime := r.avgHitTime, recoilControl := r.recoilControl,
                    phase := Finished, target := None, isFiring := false)
    ensures r.score == g.score && r.misses == g.misses && r.hitTimes == g.hitTimes
    ensures r.missClicks == g.missClicks && r.overshoots == g.overshoots && r.undershoots == g.undershoots
    ensures r.timeLeft == g.timeLeft && r.settings == g.settings
    ensures |g.hitTimes| == 0 ==> r.avgHitTime == 0.0
    ensures |g.hitTimes| > 0 ==> r.avgHitTime * (|g.hitTimes| as real) == Results.Sum(g.hitTimes)
    ensures g.totalFiringTime <= 0.0 ==> r.recoilControl == 0.0
    ensures g.totalFiringTime > 0.0 ==> r.recoilControl * g.totalFiringTime == g.timeOnTarget * 100.0
    ensures Inv(g) ==> Inv(r) && 0.0 <= r.recoilControl <= 100.0
  {
    g.(avgHitTime := Results.Mean(g.hitTimes),
       recoilControl := Results.RecoilControl(g.timeOnTarget, g.totalFiringTime),
       phase := Finished, target := None, isFiring := false)
  }

  /** The effect watching the clock: a game in play with no time left ends. */
  function CheckEnd(g: Game): (r: Game)
    ensures g.phase == Playing && g.timeLeft <= 0 ==> r == EndGame(g)
    ensures !(g.phase == Playing && g.timeLeft <= 0) ==> r == g
    ensures r.phase == Playing ==> r.timeLeft > 0
    ensures Inv(g) ==> Inv(r)
  {
    if g.timeLeft <= 0 && g.phase == Playing then EndGame(g) else g
  }

  /** The duration select on the configuration screen also resets the clock. */
  function DurationChosen(g: Game, seconds: int): (r: Game)
    ensures g.phase == Config ==> r == g.(settings := g.settings.(duration := seconds), timeLeft := seconds)
    ensures g.phase != Config ==> r == g
    ensures Inv(g) ==> Inv(r)
  {
    if g.phase == Config then g.(settings := g.settings.(duration := seconds), timeLeft := seconds) else g
  }

  /** Everything that can happen to a session, as delivered by the browser and its timers. */
  datatype Event =
    | StartPressed(width: real, height: real, now: real)
    | DurationSelected(seconds: int)
    | Second
    | Frame(deltaTime: real, rand: real, width: real, height: real)
    | RespawnTimer(width: real, height: real, randX: real, randY: real, cosA: real, sinA: real, now: real)
    | TargetClick(x: real, y: real, now: real)
    | HitTimer(timeLeftAtHit: int, width: real, height: real,
               randX: real, randY: real, cosA: real, sinA: real, now: real)
    | AreaClick(x: real, y: real)
    | MouseMove(x: real, y: real)
    | MouseDown(x: real, y: real)
    | MouseUp
    | MouseLeave

  /** Frame durations are never negative. */
  predicate ValidEvent(e: Event) {
    e.Frame? ==> e.deltaTime >= 0.0
  }

  /** One event, followed by the end-of-game effect that re-runs after every state change. */
  function Step(g: Game, e: Event): (r: Game)
    ensures Inv(g) && ValidEvent(e) ==> Inv(r)
    ensures r.phase == Playing ==> r.timeLeft > 0
  {
    var h := match e
      case StartPressed(w, ht, now) => EnterPlaying(StartGame(g), w, ht, now)
      case DurationSelected(s) => DurationChosen(g, s)
      case Second => ClockTick(g)
      case Frame(dt, rand, w, ht) => AnimationFrame(g, dt, rand, w, ht)
      case RespawnTimer(w, ht, rx, ry, c, s, now) => RespawnIfDue(g, w, ht, rx, ry, c, s, now)
      case TargetClick(x, y, now) => ClickTarget(g, x, y, now)
      case HitTimer(tl, w, ht, rx, ry, c, s, now) => HitTimerFired(g, tl, w, ht, rx, ry, c, s, now)
      case AreaClick(x, y) => ClickArea(g, x, y)
      case MouseMove(x, y) => PointerMoved(g, x, y)
      case MouseDown(x, y) => PointerDown(g, x, y)
      case MouseUp => PointerReleased(g)
      case MouseLeave => PointerReleased(g);
    CheckEnd(h)
  }

  /** A sequence of events, in order. */
  function Run(g: Game, es: seq<Event>): Game
    decreases |es|
  {
    if |es| == 0 then g else Run(Step(g, es[0]), es[1..])
  }

  /** The invariant holds after any sequence of valid events. */
  lemma {:induction false} RunKeepsInv(g: Game, es: seq<Event>)
    requires Inv(g)
    requires forall i :: 0 <= i < |es| ==> ValidEvent(es[i])
    ensures Inv(Run(g, es))
    decreases |es|
  {
    if |es| > 0 {
      assert forall i :: 0 <= i < |es[1..]| ==> es[1..][i] == es[i + 1];
      RunKeepsInv(Step(g, es[0]), es[1..]);
    }
  }

  /**
   * After pressing start, whatever happens: the score is the number of hit
   * times, the misses are the miss offsets and split into overshoots and
   * undershoots, and accuracy and recoil control stay within 0..100.
   */
  lemma SessionLogConsistent(g: Game, width: real, height: real, now: real, es: seq<Event>)
    requires forall i :: 0 <= i < |es| ==> ValidEvent(es[i])
    ensures var r := Run(Step(g, StartPressed(width, height, now)), es);
      && r.score == |r.hitTimes|
      && r.misses == |r.missClicks| == r.overshoots + r.undershoots
      && 0.0 <= Results.Accuracy(r.score, r.misses) <= 100.0
      && 0.0 <= Results.RecoilControl(r.timeOnTarget, r.totalFiringTime) <= 100.0
  {
    RunKeepsInv(Step(g, StartPressed(width, height, now)), es);
  }

  /** `k` clock seconds with nothing else happening. */
  function Seconds(g: Game, k: nat): Game
    decreases k
  {
    if k == 0 then g else Seconds(Step(g, Second), k - 1)
  }

  /**
   * A game in play with `t > 0` seconds left (as every game in play is after
   * a step) is still in play, with `t - k`
   * left, after `k < t` seconds, and has finished after exactly `t`.
   */
  lemma {:induction false} ClockRunsOut(g: Game, k: nat)
    requires g.phase == Playing && 0 < g.timeLeft && k <= g.timeLeft
    ensures var r := Seconds(g, k);
      && (k < g.timeLeft ==> r.phase == Playing && r.timeLeft == g.timeLeft - k)
      && (k == g.timeLeft ==> r.phase == Finished && r.timeLeft == 0)
    decreases k
  {
    if k > 0 {
      var h := Step(g, Second);
      assert h.timeLeft == g.timeLeft - 1;
      assert Seconds(g, k) == Seconds(h, k - 1);
      if g.timeLeft > 1 {
        assert h.phase == Playing;
        ClockRunsOut(h, k - 1);
      } else {
        assert h.phase == Finished && h.timeLeft == 0;
      }
    }
  }
}
