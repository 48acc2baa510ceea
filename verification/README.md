# Aim trainer core, modelled in Dafny

This project models the computational core of the "sensi" coaching app. Its centre is the in-browser aim-training minigame (`components/AimTrainer.tsx`). Three small pure helpers from the results and analysis views are modelled too.

The minigame keeps its state in React hooks, refs and effects. Here that state is one immutable record, `Session.Game`. Every handler, timer callback and effect of the component that changes game state is a pure function from record to record, except those listed under "## Left out". An external driver (the browser's timers and animation-frame loop) delivers them as `Session.Event`s through `Session.Step`.

- `Targets` holds the target record and its three pure operations:
  - `spawnTarget` with its speed table, and the centred recoil target;
  - the classic per-frame bounce-and-clamp move (per frame, not scaled by elapsed time);
  - the recoil per-frame move: upward drift clamped at the top edge and bounded sideways jitter, both scaled by elapsed time.
- `Session` holds the game states `config | playing | finished` and the statistics reset. It also holds the 1 Hz clock and the end-of-game effect, hit and miss handling (score, hit times, miss offsets, overshoots and undershoots), recoil firing and time-on-target accounting, and the invariants that every event preserves.
- `Results` holds accuracy, mean hit time, recoil control and the overshoot/undershoot sensitivity suggestion.
- `Histogram` holds the hit-time distribution binning: 5 to 10 equal-width bins, and the counting loop with the last index clamped.
- `AnalysisText` holds the analysis text layout: split on newlines, trim, drop blank lines, and classify each line as header, bullet or paragraph with JavaScript `substring` semantics.
- `FrameNav` holds the frame visualizer's cyclic previous/next index and the first-match lookup of visual data.
- `Wrappers` holds the `Option` type that stands for the program's `null`.

How the program's inputs are represented:

- `Math.random()` is a `real` parameter. Contracts that need it to lie in [0, 1) say so as a hypothesis (`IsRandom`).
- The random direction of a moving target is a given `(cos, sin)` pair.
- `Date.now()` is a `now` parameter, and the animation frame's elapsed time is a `deltaTime` parameter.
- JavaScript numbers are `real`, so arithmetic is exact.
- The circular hit test `sqrt(d) < size / 2` is written without the root, as `size / 2 > 0 && d < (size / 2)^2`. This matches it for every input, because a square root is never negative.
- The play-area element is rendered only while the game is playing (`AimTrainer.tsx:464-480`), so its ref is null at other times. The model therefore treats the area as absent outside play. This is why a 200 ms hit timer that fires after the game has ended does not spawn a new target.

Some facts about the program that shape the model:

- There is a single target at a time, no countdown before play, no combo counter, and no precomputed recoil pattern. Classic movement is a fixed step per frame, not scaled by elapsed time (`components/AimTrainer.tsx:163-183`).
- A miss counts as an overshoot when the click is to the right of the target's centre (`clickX > targetCenterX`, `components/AimTrainer.tsx:315`), and as an undershoot otherwise.
- Recoil control is time on target divided by total firing time, times 100, or 0 when there was no firing (`components/AimTrainer.tsx:147`).
- The hit time is measured from the spawn-time ref that `spawnTarget` sets (`components/AimTrainer.tsx:101`, read at line 280).

## Model

| member | source | states |
|---|---|---|
| Targets.SpeedValue | components/AimTrainer.tsx:74-81 | speed is 0 exactly for the stationary setting; every moving setting moves 1.5 to 5 px per frame |
| Targets.Spawn | components/AimTrainer.tsx:69-102 | nothing is spawned when the area has zero width or height; otherwise a target of the configured size created now, within [0, width-size] x [0, height-size] for random factors in [0,1) when the area is at least target size; still when stationary; for a unit direction (cos, sin) the velocity has the table speed, squared speed equal to the table speed squared, and component along (cos, sin) equal to the table speed, so it is speed·(cos, sin); zero velocity exactly when stationary |
| Targets.SpawnReachesArea | components/AimTrainer.tsx:93-94 | every position of [0, width-size) x [0, height-size) is the spawn position for some random factors in [0,1) |
| Targets.SpawnCentred | components/AimTrainer.tsx:104-115 | the recoil target is still, has the configured size and is centred in the area, hence inside it when the area is at least target size |
| Targets.BounceAxis | components/AimTrainer.tsx:169-181 | on one axis: if the tentative position stays clear of both edges it is taken and the velocity kept; if it touches or crosses an edge the velocity is negated and, when the target fits, the position is clamped to the edge it touched (0 at the start edge, extent-size at the far edge); the speed is kept; the result lies in [0, extent-size] when the target fits |
| Targets.Bounce | components/AimTrainer.tsx:167-182 | the classic frame keeps size, spawn time and speed on both axes, puts the target inside an area at least its size, reverses a component exactly when that axis touched or crossed an edge, and clamps that coordinate to the edge it touched |
| Targets.BounceFramesKeepSpeedAndArea | components/AimTrainer.tsx:163-183 | over any number of frames the speed on each axis is preserved and, after at least one frame, the target is inside an area at least its size |
| Targets.RecoilStep | components/AimTrainer.tsx:186-210 | the new y is max(0, y - 2.5 px per 60 Hz frame's worth of elapsed time), so it reaches 0 exactly when the drift would carry it to or past the top edge and otherwise climbs by exactly that amount; for a target at or below the top edge it never increases over non-negative elapsed time; the sideways change is at most 0.75 px per 60 Hz frame for a random factor in [0,1); velocity and size unchanged; the pointer counts as on target exactly when strictly inside the moved circle |
| Targets.RecoilRunClimbs | components/AimTrainer.tsx:186-210 | over any run of firing frames of non-negative duration that has at least one frame or starts at or below the top edge, the target ends at max(0, y - 2.5 px per 60 Hz frame's worth of total elapsed time), however that time is cut into frames |
| Targets.OnTarget | components/AimTrainer.tsx:201-205 | a point on the target is strictly within half the size of its centre on each axis |
| Targets.OnTargetIsDistance | components/AimTrainer.tsx:335-339 | the root-free test is true exactly when the Euclidean distance from the centre, `Math.sqrt` of the squared offsets, is below half the size |
| Session.Initial | components/AimTrainer.tsx:34-67 | the trainer opens in config with every statistic cleared, in classic mode with a 30 s duration, 50 px stationary targets and 30 s on the clock |
| Session.ResetStats | components/AimTrainer.tsx:118-135 | every statistic is cleared, the clock is rewound to the chosen duration, the invariant holds, and phase, settings and refs are kept |
| Session.StartGame | components/AimTrainer.tsx:137-140 | starting gives a playing game with every statistic cleared and the full duration on the clock |
| Session.StartForgetsHistory | components/AimTrainer.tsx:118-140 | two games with the same settings and refs start identically, whatever their earlier sessions, and starting twice is starting once |
| Session.EnterPlaying | components/AimTrainer.tsx:233-242 | when play begins in recoil mode the target becomes exactly the centred recoil target (still, created now, of the configured size, at the area's centre) and nothing else changes; otherwise nothing changes |
| Session.SpawnClassic | components/AimTrainer.tsx:69-102 | outside play or in an area of zero size nothing changes; otherwise only the target and the spawn-time ref change, and the target is exactly the one the spawn produces (size, creation time, position and table-speed velocity as in Targets.Spawn), inside the area for random factors in [0,1) |
| Session.RespawnIfDue | components/AimTrainer.tsx:245-250 | the 300 ms timer does nothing unless a classic game in play has time left and no target; then it is exactly the classic spawn, so only the target and spawn-time ref change and a target appears when the area has a size |
| Session.ClickArea | components/AimTrainer.tsx:297-320 | a click is ignored unless the mode is classic, the game is playing, a target exists and no hit is pending; a counted miss adds 1 to misses, appends exactly one offset equal to click minus target centre, and increments exactly one of overshoots (click right of centre) or undershoots; nothing else changes |
| Session.ClickTarget | components/AimTrainer.tsx:277-295 | a hit on a classic target with no hit pending adds exactly 1 to the score, appends exactly one hit time (now minus spawn time) and marks the hit pending; an ignored click changes nothing, even after bubbling to the area |
| Session.HitTimerFired | components/AimTrainer.tsx:282-287 | the hit animation ends; if the clock showed time left at the hit, the rest is exactly the classic spawn, so only the target and spawn-time ref change and a new target created now appears if the game is still in play; otherwise nothing else changes |
| Session.PointerMoved | components/AimTrainer.tsx:322-326 | the pointer position is recorded only over the mounted play area |
| Session.PointerDown | components/AimTrainer.tsx:328-344 | firing starts exactly when, in recoil play with a target, the press is strictly inside the target circle; nothing else changes |
| Session.PointerReleased | components/AimTrainer.tsx:346-352 | mouse up or leave stops firing in recoil mode and changes nothing in classic mode |
| Session.AnimationFrame | components/AimTrainer.tsx:153-216 | outside play, without a target, for a stationary classic target or a recoil target not being fired at, nothing changes; a moving classic target takes exactly one bounce step and stays inside an area at least its size, and classic frames never touch the recoil times; a fired-at recoil target takes exactly one recoil step, total firing time grows by the frame's duration and time on target grows by it exactly when the pointer is strictly inside the moved target; the invariant survives frames of non-negative duration |
| Session.ClockTick | components/AimTrainer.tsx:252-261 | the clock only runs in play, takes one second off a positive clock and never goes below 0; nothing else changes |
| Session.EndGame | components/AimTrainer.tsx:142-151 | the game finishes with no target and no firing; the mean hit time times the number of hits is their sum (0 with no hits); recoil control times firing time is 100 times time on target (0 if never fired) and lies in [0,100]; every other field, logs, recoil times and refs included, is unchanged |
| Session.CheckEnd | components/AimTrainer.tsx:263-267 | a playing game with no time left ends; anything else is unchanged; a game still in play has time left |
| Session.DurationChosen | components/AimTrainer.tsx:413-417 | on the configuration screen choosing a duration sets both the duration and the clock |
| Session.Step | components/AimTrainer.tsx:263-267 | every valid event, followed by the end-of-game check, preserves the session invariant, and a game still in play afterwards has time left |
| Session.RunKeepsInv | components/AimTrainer.tsx:277-320 | after any sequence of events with non-negative frame durations, the score equals the number of hit times, misses equal the miss offsets and overshoots plus undershoots, and 0 <= time on target <= firing time |
| Session.SessionLogConsistent | components/AimTrainer.tsx:277-354 | after pressing start and any events, score = number of hit times, misses = number of offsets = overshoots + undershoots, and accuracy and recoil control lie in [0,100] |
| Session.ClockRunsOut | components/AimTrainer.tsx:252-267 | a game in play with t > 0 seconds left is still in play with t-k left after k < t seconds and has finished with 0 left after exactly t |
| Results.Mean | components/AimTrainer.tsx:145 | the mean times the count is the sum of the hit times, and it is 0 with no hit times |
| Results.Sum | components/AimTrainer.tsx:145 | the sum of no hit times is 0 and of one is that time; its bounds are stated by Results.SumBounds |
| Results.SumBounds | components/AimTrainer.tsx:145 | bounding every hit time between lo and hi bounds the sum between lo and hi times the count |
| Results.MeanBetween | components/AimTrainer.tsx:145 | the mean hit time lies between any lower and upper bound of the hit times |
| Results.Accuracy | components/AimTrainer.tsx:354 | accuracy lies in [0,100], is 0 with no events, and otherwise times the event count equals 100 times the score |
| Results.AccuracyExtremes | components/AimTrainer.tsx:354 | accuracy is 100 exactly when there are hits and no misses, and 0 exactly when there are no hits |
| Results.RecoilControl | components/AimTrainer.tsx:147 | 0 when never fired, otherwise times firing time equals 100 times time on target, within [0,100] when 0 <= time on target <= firing time |
| Results.Suggest | components/AimTrainer.tsx:356-360 | "not enough data" exactly when fewer than 5 misses were classified |
| Results.SuggestMatchesRatio | components/AimTrainer.tsx:361-369 | with at least 5 classified misses: lower sensitivity exactly when the overshoot ratio exceeds 0.65, raise exactly when it is below 0.35, balanced exactly when it lies in [0.35, 0.65], boundaries included |
| Results.SuggestSymmetric | components/AimTrainer.tsx:356-370 | swapping overshoots and undershoots swaps "lower" with "raise" and keeps "balanced" |
| Histogram.SeqMin | components/HitTimeDistributionChart.tsx:19 | the minimum is one of the times and no time is below it |
| Histogram.SeqMax | components/HitTimeDistributionChart.tsx:20 | the maximum is one of the times and no time is above it |
| Histogram.NumBins | components/HitTimeDistributionChart.tsx:21 | the bin count is a third of the times kept within [5,10] |
| Histogram.BinWidth | components/HitTimeDistributionChart.tsx:23 | the width is positive: the range divided evenly over the bins, or 1 when all times are equal |
| Histogram.BinIndex | components/HitTimeDistributionChart.tsx:31-34 | the index is below the bin count and not negative for times at or above the minimum; the time is at or above its bin's lower edge, and below the next edge unless it is the last bin |
| Histogram.MaxInLastBin | components/HitTimeDistributionChart.tsx:31-34 | when the times span a range the slowest time lands in the last bin |
| Histogram.EmptyBins | components/HitTimeDistributionChart.tsx:25-28 | the bins start empty with lower edges min + i * width |
| Histogram.FillBins | components/HitTimeDistributionChart.tsx:30-38 | after the counting loop each bin holds exactly the number of times whose index is that bin, and when no time is below the minimum the counts sum to the number of times |
| Histogram.Build | components/HitTimeDistributionChart.tsx:8-38 | no chart below 5 times; otherwise 5 to 10 bins of positive width with edges min + i * width, strictly increasing, each holding its times, counts summing to the number of times |
| AnalysisText.SplitPiecesNewlineFree | components/AnalysisDisplay.tsx:15 | no piece of the split contains a newline |
| AnalysisText.Split | components/AnalysisDisplay.tsx:15 | `split('\n')` yields at least one piece; the pieces are newline-free and round-trip with Join, as AnalysisText.JoinSplit and AnalysisText.SplitJoin state |
| AnalysisText.JoinSplit | components/AnalysisDisplay.tsx:15 | joining the pieces with newlines gives back the text |
| AnalysisText.SplitJoin | components/AnalysisDisplay.tsx:15 | splitting newline-free lines joined by newlines gives back the lines |
| AnalysisText.SplitAcross | components/AnalysisDisplay.tsx:15 | the pieces of a + newline + b are the pieces of a followed by those of b |
| AnalysisText.TrimSpec | components/AnalysisDisplay.tsx:16 | trimming removes only white space, from both ends, leaves a line that neither starts nor ends with white space, and is empty exactly for all-blank lines |
| AnalysisText.Trim | components/AnalysisDisplay.tsx:16 | `trim()` never lengthens the line and leaves a non-empty result that neither starts nor ends with white space; the rest is stated by AnalysisText.TrimSpec and AnalysisText.TrimIdempotent |
| AnalysisText.TrimIdempotent | components/AnalysisDisplay.tsx:16 | trimming a trimmed line changes nothing |
| AnalysisText.Substring | components/AnalysisDisplay.tsx:23 | in-range arguments take that slice, reversed in-range arguments take the slice between them |
| AnalysisText.Classify | components/AnalysisDisplay.tsx:20-39 | header exactly when the line starts and ends with `**`, taking precedence; its text is the middle for 4+ characters, `**` for `**` and `*` for `***`; bullet exactly for other lines starting `* `, with text after those two characters; anything else is a paragraph of the line unchanged |
| AnalysisText.FormatLineByLine | components/AnalysisDisplay.tsx:15-40 | a newline-free line yields nothing when blank after trimming and otherwise the one element its trimmed text classifies as; text around a newline yields the elements before it followed by those after it, so output follows line order with one element per non-blank line |
| AnalysisText.Format | components/AnalysisDisplay.tsx:12-43 | at most one element per line of the text; which element each line yields, in order, is stated by AnalysisText.FormatLineByLine |
| FrameNav.Next | components/FrameVisualizer.tsx:18-20 | for n > 0 and an index in [0,n), the next index is in [0,n) and equals (i+1) mod n, so the last wraps to 0 |
| FrameNav.Previous | components/FrameVisualizer.tsx:14-16 | for n > 0 and an index in [0,n), the previous index is in [0,n) and equals (i+n-1) mod n, so 0 wraps to n-1 |
| FrameNav.NextPreviousInverse | components/FrameVisualizer.tsx:14-20 | next and previous undo each other |
| FrameNav.NextTimesShifts | components/FrameVisualizer.tsx:18-20 | k presses of next advance the index by k modulo n |
| FrameNav.FullCycle | components/FrameVisualizer.tsx:18-20 | n presses of next return to the starting frame |
| FrameNav.FrameData | components/FrameVisualizer.tsx:22 | the result is the first entry whose frame index equals the current index, or none exactly when no entry matches |

The frame visualizer opens on frame 0 (`FrameNav.StartIndex`, `components/FrameVisualizer.tsx:12`).

## Left out

- Rendering, CSS animations and the feedback markers (`addFeedback`, 400 ms removal) are presentation only.
- The 200 ms and 300 ms respawn delays, the 1 s interval and `requestAnimationFrame` scheduling are left to an external driver. It delivers `Session.Event`s; cancelling a timer means the event is not delivered.
- The frame timestamp bookkeeping (`lastFrameTimeRef`, reset to 0 whenever the loop effect re-subscribes, so the first frame after a restart has zero elapsed time) is not modelled. The frame's elapsed time is a parameter instead.
- The recoil accounting runs inside a React state updater. A development-mode double invocation of that updater is not modelled.
- The configuration controls for mode, speed (select boxes) and target size (a range input, 20 to 80 px) only assign the chosen value. They are represented by `Session.Settings`, and only the duration select, which also sets the clock, is an operation.
- In classic mode the browser's hit test on the round target element decides between a hit and a miss. The model takes that decision as given by the event kind: `TargetClick` and `AreaClick` carry no geometric check.
- Strings are sequences of Unicode scalar values, not JavaScript's UTF-16 code units, so unpaired surrogates cannot be represented. Lengths differ for characters outside the Basic Multilingual Plane. The layout only inspects newlines, white space and `*`, which are single units in both, so classification and the extracted texts agree.
- The "Analyze My Aim" show/hide toggle is a UI flag with no logic.
- `Math.cos`/`Math.sin` of a random angle are not modelled. The direction is a given pair, and the unit-length facts are hypotheses of `Targets.Spawn`'s contract.
- IEEE-754 rounding, NaN and infinities are not modelled: all arithmetic is exact `real`. The histogram's `|| 1` fallback is modelled only for a zero width, which is the only case reachable from finite times.
- The histogram's SVG geometry, the other charts, screen recording, frame extraction, the network call to the analysis backend, `App.tsx` page orchestration and the static UI components hold no modelled logic.
- FrameNav.Next: with no frames (n = 0) the program's index moves from 0 to 1 going forward and to -1 going back. The functions compute exactly that, but their contracts speak only of n > 0, and the visualizer is not mounted by the app.
