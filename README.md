# react-use-controllable-animation, modelled in Dafny

`useControllableAnimation` is a React hook. It drives a time-based animation
from the browser's frame callbacks and reports its progress through
callbacks:

- `onProgress(eased, {uneasedProgress, progressWithDelay, loop})` on every frame;
- `onLoop(loop)` when a loop rolls over;
- `onFinish()` when the last loop ends.

Options:

- `duration` and a leading `delay` per loop;
- `alternate`, which plays odd loops backwards;
- `alternateDelay`, which drops the delay on those alternated loops;
- a loop count `loops`, by default unbounded;
- an easing, either a key of a fixed table of curves or any function.

The hook returns `start`, `pause`, `reset` and `stop`. The package also
exports the table of easing curves on its own.

This project models both parts.

- `engine.dfy` (module `ControllableAnimation`) is the progress engine.
  - The hook's refs (`startTime`, `progress`, `progressWithDelay`, `active`,
    `loop`) are the fields of class `Engine`. Its methods `LoopCallback`,
    `Start`, `Pause`, `Reset`, `Stop` and `Autoplay` update them step by step,
    as the hook's closures do.
  - Each method is proved equal to a pure step function on `Snapshot`, a
    value copy of the refs: `FrameStep`, `StartStep`, `PauseStep`,
    `ResetStep` and `StopStep`.
  - The configuration is a `Config` value given to every frame, because the
    hook re-reads it from `propsRef` on every frame. The callbacks become the
    emitted `Event`s.
  - `requestAnimationFrame` is the counter `pending` of requested frames not
    yet delivered.
- `engine_properties.dfy` (module `EngineProperties`) holds the lemmas about
  the step functions:
  - the loop period;
  - progress as a function of elapsed time, and the delay window;
  - the loop and finish transitions;
  - resuming without a jump;
  - reset-then-start;
  - the second frame chain that `start` after `pause` creates;
  - runs of many frames.
- `easings.dfy` (module `Easings`) holds the 31 curves of the easing table.
  - The polynomial families are exact over `real`.
  - Sine, Expo, Circ and Elastic take the host's `cos`, `sin`, `pow` and
    `sqrt` as a `Math` record of uninterpreted functions. Most facts about
    them hold whatever those primitives compute. The endpoint lemmas assume
    only the values at 0 and 1 that both exact arithmetic and the host give
    (cos 0 = 1, sin 0 = 0, sqrt 0 = 0, sqrt 1 = 1).
- `easing_properties.dfy` (module `EasingProperties`) holds the lemmas about
  the curves: endpoints, In/Out mirror symmetry, InOut halves, ranges, the
  Bounce breakpoints and the Expo/Elastic pass-through.
- `easing_registry.dfy` (module `EasingRegistry`) holds the table itself.
  - It is a datatype of the 31 keys, so an unknown key cannot be written.
  - `Resolve` turns the `easing` option into a curve.
  - The table is the source's, easeInOutExpo included as written. A
    corrected table, `EaseCorrected`, sits beside it.
  - It proves that every registered curve maps 0 to 0. Every curve but
    easeInOutExpo and the three Sine curves also maps 1 to 1. For those four,
    reaching 1 depends on a primitive's value, stated as an if-and-only-if.

## Model

| member | source | states |
|---|---|---|
| `ControllableAnimation.Clamp` | src/useControllableAnimation.tsx:5-7 | the result is at least `min`, at most `max` when `min <= max`, and is `val` when in range, `min` below and `max` above |
| `ControllableAnimation.LoopDuration` | lib/esm/useControllableAnimation.js:44-47 | the loop period is `duration` or `duration + delay`, and is at least `duration > 0` for a valid configuration |
| `ControllableAnimation.FrameStep` | src/useControllableAnimation.tsx:76-117 | a frame on an inactive engine consumes its request and changes and emits nothing; on an active engine it requests exactly one replacement frame and leaves both progress values in [0, 1] |
| `ControllableAnimation.StartStep` | src/useControllableAnimation.tsx:119-123 | no change when active; otherwise active with one more frame requested, progress state untouched |
| `ControllableAnimation.PauseStep` | src/useControllableAnimation.tsx:125-128 | inactive with the start time cleared; progress, loop and pending requests unchanged |
| `ControllableAnimation.ResetStep` | src/useControllableAnimation.tsx:130-140 | start time cleared, both progress values and the loop zero, `active` and requests unchanged, exactly one report `onProgress(0, {0, 0, 0})` |
| `ControllableAnimation.StopStep` | src/useControllableAnimation.tsx:142-145 | inactive and reset, with the single zero report |
| `ControllableAnimation.Engine.constructor` | src/useControllableAnimation.tsx:42-46 | the refs start unset, zero and inactive, with no frame requested |
| `ControllableAnimation.Engine.LoopCallback` | lib/cjs/useControllableAnimation.js:44-78 | updating the refs in place gives exactly the state and the callbacks of `FrameStep`, and keeps both progress values in [0, 1] |
| `ControllableAnimation.Engine.Start` | lib/esm/useControllableAnimation.js:74-79 | the refs become `StartStep` of the old refs |
| `ControllableAnimation.Engine.Pause` | lib/esm/useControllableAnimation.js:80-83 | the refs become `PauseStep` of the old refs |
| `ControllableAnimation.Engine.Reset` | lib/cjs/useControllableAnimation.js:89-99 | the refs and the report are those of `ResetStep` |
| `ControllableAnimation.Engine.Stop` | lib/cjs/useControllableAnimation.js:100-103 | the refs and the report are those of `StopStep` |
| `ControllableAnimation.Engine.Autoplay` | src/useControllableAnimation.tsx:147-149 | starts the engine exactly when `autoplay` is set |
| `EngineProperties.LoopDurationRule` | src/useControllableAnimation.tsx:82-87 | the period is `duration + delay` except on odd loops with both `alternate` and `alternateDelay`, where it is `duration` |
| `EngineProperties.WithDelayFollowsElapsed` | src/useControllableAnimation.tsx:91 | for elapsed time e and period L, `progressWithDelay` is 0 for e <= 0, e/L in between and 1 for e >= L |
| `EngineProperties.ProgressFollowsElapsed` | src/useControllableAnimation.tsx:92 | `progress` is 0 up to e = L - duration, then (e - (L - duration))/duration, and 1 from e = L on |
| `EngineProperties.DelayWindowHoldsProgress` | src/useControllableAnimation.tsx:92-97 | inside the leading delay window progress is 0, the loop continues, and the curve is fed 0, or 1 on an alternated loop |
| `EngineProperties.FrameReportsProgress` | src/useControllableAnimation.tsx:93-103 | the first callback of a frame reports the new progress values and the current loop; the curve is fed `1 - progress` on alternated loops and `progress` otherwise |
| `EngineProperties.LoopBoundary` | src/useControllableAnimation.tsx:105-116 | a loop completes exactly when elapsed time reaches the period. Then either the next loop starts at `t` with `onLoop(loop + 1)`, or the engine deactivates with loop 0, start time cleared and `onFinish`. Otherwise the loop goes on with a single callback, and the frame stores the start time it measured from |
| `EngineProperties.ElapsedAdvancesWithClock` | src/useControllableAnimation.tsx:88-92 | two frames in a row: inside a loop the second frame's elapsed time is the first one's plus the time between them; after a rollover it is the time since the rolling frame |
| `EngineProperties.FirstLoopTimeline` | src/useControllableAnimation.tsx:88-92 | after reset and start with a first frame at t0, `progressWithDelay` is (t - t0)/(duration + delay) and reaches 1 at t0 + duration + delay; `progress` is 0 until t0 + delay, then (t - t0 - delay)/duration, and 1 at the end |
| `EngineProperties.LoopEndReportsCurveEnd` | src/useControllableAnimation.tsx:92-99 | the frame that completes a loop reports a named curve's end value: 1, or 0 on an alternated loop, for every curve that ends at 1 |
| `EngineProperties.UnboundedNeverFinishes` | lib/esm/useControllableAnimation.js:61-72 | with unbounded `loops` a frame never deactivates and never emits `Finish` |
| `EngineProperties.LoopStaysBelowCount` | lib/cjs/useControllableAnimation.js:66-77 | with a finite `loops`, the loop counter stays below it |
| `EngineProperties.ResumeKeepsProgressWithDelay` | src/useControllableAnimation.tsx:88-91 | a derived start time makes this frame's elapsed fraction equal the stored `progressWithDelay`, which the frame then keeps |
| `EngineProperties.PauseResumeNoJump` | lib/cjs/useControllableAnimation.js:53-57 | pause then start: the first frame after resuming reports the same progress, `progressWithDelay`, loop and callbacks as the last frame before the pause, whatever the timestamps, when that frame came before the end of its loop |
| `EngineProperties.PauseAfterRolloverSkipsLoop` | src/useControllableAnimation.tsx:105-108 | as written: pause right after a frame that rolled over, then start. The resumed frame reports the new loop at progress 1 and rolls over again, or finishes, whatever the resume time. The new loop is skipped |
| `EngineProperties.FixedFrameLeavesResumablePosition` | src/useControllableAnimation.tsx:88-108 | with the rollover also rewinding `progressWithDelay` to 0 (`FrameStepFixed`), every frame keeps the state in range, and a frame that leaves the engine running leaves `progressWithDelay` below 1 |
| `EngineProperties.FixedPauseResumeNoJump` | src/useControllableAnimation.tsx:88-92 | with the corrected step, pause then start after any frame that left the engine running resumes in the same loop. It reports the stored `progressWithDelay`, with no rollover; after a rollover it resumes the new loop at progress 0 |
| `EngineProperties.ResumeAfterPause` | src/useControllableAnimation.tsx:119-128 | resuming from a stored position inside the loop stays in that loop with a single report of that position. The corrected step agrees with the source's there |
| `EngineProperties.DerivedStartElapsed` | lib/cjs/useControllableAnimation.js:53-54 | with no start time, the elapsed time of the frame is the stored fraction of the loop period |
| `EngineProperties.ResetThenStartBeginsFresh` | lib/esm/useControllableAnimation.js:48-52 | after reset and start, the next frame starts loop 0 at its own timestamp and reports progress 0 |
| `EngineProperties.PauseThenStartAddsChain` | lib/esm/useControllableAnimation.js:74-83 | `start` after `pause` requests another frame although one is still pending; the stale frame re-requests too, leaving one more chain than before |
| `EngineProperties.StartIdempotent` | lib/cjs/useControllableAnimation.js:79-84 | starting twice is starting once |
| `EngineProperties.StopIsDeactivatedReset` | lib/esm/useControllableAnimation.js:84-98 | stop is reset with `active` cleared, and stopping twice is stopping once |
| `EngineProperties.ZeroStartTimeIsUnset` | lib/cjs/useControllableAnimation.js:53-55 | a stored start time of exactly 0 is falsy, so the frame behaves as with no start time |
| `EngineProperties.RunKeepsRange` | lib/esm/useControllableAnimation.js:51-52 | after any sequence of frames, with any valid configurations, both progress values stay in [0, 1] |
| `EngineProperties.RunWhileInactiveIsSilent` | lib/esm/useControllableAnimation.js:40-42 | frames delivered to an inactive engine emit nothing and only drain pending requests |
| `EngineProperties.SingleLoopRun` | src/useControllableAnimation.tsx:88-116 | one loop with no delay: frames at t0 and t0 + duration report progress 0 then 1 and finish, with loop 0 and one frame still requested |
| `EngineProperties.FullLoopFrame` | src/useControllableAnimation.tsx:88-116 | without delay, a frame one duration after the stored start reports the loop's end (the curve fed 1, or 0 on an alternated loop) and then rolls over at its own timestamp or finishes |
| `EngineProperties.AlternatingThreeLoopRun` | src/useControllableAnimation.tsx:82-116 | three alternating loops without delay, one frame at each loop end: the curve is fed 0, 1, 0, 1 (forwards, backwards, forwards), `onLoop` fires exactly twice (loops 1 and 2), then `onFinish`, with loop 0 and the start time cleared |
| `EngineProperties.AlternatingLoopEndsRun` | src/useControllableAnimation.tsx:105-116 | the three loop-end frames of that run, from the state the first frame leaves: their reports and the `onLoop`/`onFinish` calls, in order |
| `EngineProperties.AlternatingLastLoopEndsRun` | src/useControllableAnimation.tsx:105-116 | the frames ending loops 1 and 2 of that run: the backwards loop reports the curve fed 0 and `onLoop(2)`, the last loop reports it fed 1 and then `onFinish` |
| `Easings.IsZeroOrOne` | src/easings.tsx:1 | predicate, no contract; used by the Expo and Elastic curves and `PassThroughAtEndpoints` |
| `Easings.Linear` | src/easings.tsx:4-6 | no contract; its endpoints are in `EasingRegistry.RegisteredEndpoints` |
| `Easings.EaseInSine` | src/easings.tsx:7-9 | no contract; endpoints in `EasingRegistry.RegisteredEndpoints` |
| `Easings.EaseOutSine` | src/easings.tsx:10-12 | no contract; endpoints in `EasingRegistry.RegisteredEndpoints` |
| `Easings.EaseInOutSine` | src/easings.tsx:13-15 | no contract; endpoints in `EasingRegistry.RegisteredEndpoints` |
| `Easings.EaseInQuad` | src/easings.tsx:16-18 | no contract; properties in `QuadEndpoints`, `InOutMirror`, `InPolynomialRange` |
| `Easings.EaseOutQuad` | src/easings.tsx:19-21 | no contract; properties in `QuadEndpoints`, `InOutMirror`, `OutPolynomialRange` |
| `Easings.EaseInOutQuad` | src/easings.tsx:22-26 | no contract; properties in `InOutQuadEndpoints`, `InOutQuadHalves`, `InOutMeetAtHalf` |
| `Easings.EaseInCubic` | src/easings.tsx:27-29 | no contract; properties in `CubicEndpoints`, `InOutMirror`, `InPolynomialRange` |
| `Easings.EaseOutCubic` | src/easings.tsx:30-32 | no contract; properties in `CubicEndpoints`, `InOutMirror`, `OutPolynomialRange` |
| `Easings.EaseInOutCubic` | src/easings.tsx:33-37 | no contract; properties in `InOutCubicEndpoints`, `InOutCubicHalves`, `InOutMeetAtHalf` |
| `Easings.EaseInQuart` | src/easings.tsx:38-40 | no contract; properties in `QuartEndpoints`, `InOutMirror`, `InPolynomialRange` |
| `Easings.EaseOutQuart` | src/easings.tsx:41-43 | no contract; properties in `QuartEndpoints`, `InOutMirror`, `OutPolynomialRange` |
| `Easings.EaseInOutQuart` | src/easings.tsx:44-48 | no contract; properties in `InOutQuartEndpoints`, `InOutQuartHalves`, `InOutMeetAtHalf` |
| `Easings.EaseInQuint` | src/easings.tsx:49-51 | no contract; properties in `QuintEndpoints`, `InOutMirror`, `InPolynomialRange` |
| `Easings.EaseOutQuint` | src/easings.tsx:52-54 | no contract; properties in `QuintEndpoints`, `InOutMirror`, `OutPolynomialRange` |
| `Easings.EaseInOutQuint` | src/easings.tsx:55-59 | no contract; properties in `InOutQuintEndpoints`, `InOutQuintHalves`, `InOutMeetAtHalf` |
| `Easings.EaseInExpo` | src/easings.tsx:60-64 | no contract; pass-through in `PassThroughAtEndpoints` |
| `Easings.EaseOutExpo` | src/easings.tsx:65-69 | no contract; pass-through in `PassThroughAtEndpoints` |
| `Easings.EaseInOutExpo` | lib/esm/easings.js:33-35 | no contract; as written, see `InOutExpoLowerHalf` and `InOutExpoMissesOne` |
| `Easings.EaseInCirc` | src/easings.tsx:75-77 | no contract; properties in `EasingRegistry.CircMirror` and `EasingRegistry.RegisteredEndpoints` |
| `Easings.EaseOutCirc` | src/easings.tsx:78-80 | no contract; properties in `EasingRegistry.CircMirror` and `EasingRegistry.RegisteredEndpoints` |
| `Easings.EaseInOutCirc` | src/easings.tsx:81-85 | no contract; endpoints in `EasingRegistry.RegisteredEndpoints` |
| `Easings.EaseInBack` | src/easings.tsx:86-88 | no contract; endpoints in `BackEndpoints` |
| `Easings.EaseOutBack` | src/easings.tsx:89-91 | no contract; endpoints in `BackEndpoints` |
| `Easings.EaseInOutBack` | src/easings.tsx:92-96 | no contract; endpoints in `BackEndpoints` |
| `Easings.EaseInElastic` | src/easings.tsx:97-101 | no contract; pass-through in `PassThroughAtEndpoints` |
| `Easings.EaseOutElastic` | src/easings.tsx:102-106 | no contract; pass-through in `PassThroughAtEndpoints` |
| `Easings.EaseInOutElastic` | src/easings.tsx:107-113 | no contract; pass-through in `PassThroughAtEndpoints` |
| `Easings.EaseInBounce` | src/easings.tsx:114-116 | no contract; properties in `BounceBreakpoints`, `BounceMirror`, `BounceRange` |
| `Easings.EaseOutBounce` | src/easings.tsx:117-124 | no contract; properties in `BounceBreakpoints`, `OutBounceRange` |
| `Easings.EaseInOutBounce` | src/easings.tsx:125-129 | no contract; properties in `BounceBreakpoints`, `BounceRange` |
| `EasingRegistry.Ease` | src/useControllableAnimation.tsx:54-55 | no contract; the lookup `easingFunctions[easing]`, properties in `RegisteredEndpoints` and `Resolve` |
| `Easings.EaseInOutExpoFixed` | src/easings.tsx:70-74 | the corrected easeInOutExpo differs from the source's curve at v = 1 only, and gives 1 there |
| `EasingProperties.QuadEndpoints` | src/easings.tsx:16-21 | easeInQuad and easeOutQuad map 0 to 0 and 1 to 1 |
| `EasingProperties.InOutQuadEndpoints` | src/easings.tsx:22-26 | easeInOutQuad maps 0 to 0 and 1 to 1 |
| `EasingProperties.CubicEndpoints` | src/easings.tsx:27-32 | easeInCubic and easeOutCubic map 0 to 0 and 1 to 1 |
| `EasingProperties.InOutCubicEndpoints` | src/easings.tsx:33-37 | easeInOutCubic maps 0 to 0 and 1 to 1 |
| `EasingProperties.QuartEndpoints` | src/easings.tsx:38-43 | easeInQuart and easeOutQuart map 0 to 0 and 1 to 1 |
| `EasingProperties.InOutQuartEndpoints` | src/easings.tsx:44-48 | easeInOutQuart maps 0 to 0 and 1 to 1 |
| `EasingProperties.QuintEndpoints` | lib/esm/easings.js:22-23 | easeInQuint and easeOutQuint map 0 to 0 and 1 to 1 |
| `EasingProperties.InOutQuintEndpoints` | lib/esm/easings.js:24-26 | easeInOutQuint maps 0 to 0 and 1 to 1 |
| `EasingProperties.InOutMirror` | lib/esm/easings.js:7-23 | for every v, easeInX(v) = 1 - easeOutX(1 - v) for Quad, Cubic, Quart and Quint |
| `EasingProperties.InOutFromHalves` | src/easings.tsx:22-59 | each polynomial InOut curve is the In curve at double speed below 0.5, and its point mirror above |
| `EasingProperties.InOutQuadHalves` | lib/esm/easings.js:9-11 | easeInOutQuad is easeInQuad(2v)/2 below 0.5 and 1 - easeInQuad(2 - 2v)/2 from 0.5 on |
| `EasingProperties.InOutCubicHalves` | lib/esm/easings.js:14-16 | the same split for easeInOutCubic |
| `EasingProperties.InOutQuartHalves` | lib/esm/easings.js:19-21 | the same split for easeInOutQuart |
| `EasingProperties.InOutQuintHalves` | src/easings.tsx:55-59 | the same split for easeInOutQuint |
| `EasingProperties.InOutMeetAtHalf` | src/easings.tsx:22-59 | both branches of each polynomial InOut curve give 0.5 at v = 0.5 |
| `EasingProperties.InPolynomialRange` | src/easings.tsx:16-54 | on [0, 1] every Quad to Quint In curve stays in [0, 1] |
| `EasingProperties.OutPolynomialRange` | lib/esm/easings.js:8-23 | on [0, 1] every Quad to Quint Out curve stays in [0, 1] |
| `EasingProperties.BackEndpoints` | src/easings.tsx:86-96 | with the literal constants, easeInBack, easeOutBack and easeInOutBack map 0 to 0 and 1 to 1 exactly |
| `EasingProperties.BounceBreakpoints` | src/easings.tsx:114-129 | easeOutBounce is 0 at 0 and 1 at 1/d, 2/d, 2.5/d and 1; easeInBounce and easeInOutBounce map 0 to 0 and 1 to 1 |
| `EasingProperties.BounceMirror` | lib/esm/easings.js:59-69 | easeOutBounce(v) = 1 - easeInBounce(1 - v) for every v: each Bounce curve is the mirror of the other |
| `EasingProperties.OutBounceRange` | src/easings.tsx:117-124 | on [0, 1] every piece of easeOutBounce stays in [0, 1] |
| `EasingProperties.BounceRange` | lib/esm/easings.js:59-72 | on [0, 1] all three Bounce curves stay in [0, 1] |
| `EasingProperties.PassThroughAtEndpoints` | src/easings.tsx:97-113 | at exactly 0 and 1, easeInExpo, easeOutExpo and all three Elastic curves return their input, whatever `pow` and `sin` are |
| `EasingProperties.InOutExpoLowerHalf` | src/easings.tsx:70-72 | below 0.5 easeInOutExpo is easeInExpo(2v)/2, hence 0 at 0 |
| `EasingProperties.InOutExpoMissesOne` | lib/esm/easings.js:33-35 | easeInOutExpo as written gives 1 at 1 only if `pow(2, -10)` is 0; with the true value 1/1024 it gives 2047/2048 |
| `EasingProperties.InOutExpoFixedEndpoints` | src/easings.tsx:60-74 | the corrected easeInOutExpo maps 0 to 0 and 1 to 1, and delegates to easeInExpo below 0.5 |
| `EasingRegistry.Resolve` | src/useControllableAnimation.tsx:54-56 | a custom function is used as is. A key gives its table entry at every point. Hence a key's curve starts at 0, and ends at 1 for every curve but the Sine ones and easeInOutExpo |
| `EasingRegistry.RegisteredEndpoints` | src/easings.tsx:3-130 | every entry of the source's table maps 0 to 0, and all but four map 1 to 1. The Sine curves reach 1 at 1 exactly when cos(Pi/2) = 0, sin(Pi/2) = 1, or cos(Pi) = -1 at the rational `Pi`. easeInOutExpo reaches 1 exactly when pow(2, -10) = 0 |
| `EasingRegistry.CorrectedTableEndpoints` | lib/esm/easings.js:27-35 | the corrected table differs from the source's only at easeInOutExpo at 1. There every non-Sine curve maps 0 to 0 and 1 to 1 |
| `EasingRegistry.CircMirror` | src/easings.tsx:75-80 | easeInCirc(v) = 1 - easeOutCirc(1 - v) for every v, whatever `sqrt` is |

## Left out

- React plumbing is not modelled: `useRef`, `useCallback`, `useEffect`, and the `propsRef` refresh on every render. The refs are the fields of `Engine`, and the configuration read through `propsRef` is the `Config` passed to each frame.
- The real clock and `requestAnimationFrame` are outside the model. A timestamp is a parameter of each frame, and a frame request is an increment of `pending`. The order of the frames is the caller's choice.
- Re-entrant calls are not modelled: for example `pause` called from inside `onProgress`. Callbacks are emitted events and run no code.
- IEEE-754 arithmetic is not modelled. Times and progress are `real`, so `progress === 1` is exact equality on reals and no rounding is modelled.
- The bodies of `Math.cos`, `Math.sin`, `Math.pow` and `Math.sqrt` are not modelled. They are the uninterpreted fields of `Easings.Math`. `Math.PI` is its printed literal. So Sine, Expo, Circ and Elastic get only structural facts. Their endpoint lemmas assume only the values at 0 and 1 that exact arithmetic and the host agree on (`EasingRegistry.ExactAtZeroAndOne`).
- EasingRegistry.RegisteredEndpoints does not claim that the Sine curves end at 1. Their values at 1 are cos and sin at a rational approximation of pi, which are not exactly 0, 1 or -1. The lemma states the exact condition instead.
- The Sine In/Out mirror identity needs trigonometric identities, which uninterpreted primitives do not provide, so it is not stated.
- `ControllableAnimation.FrameStep` requires `duration > 0` and `delay >= 0` (`ValidConfig`), so every negative delay is excluded. Only a zero duration or a zero period (`delay = -duration`) makes the source divide by zero and yield `NaN` or `Infinity`. A negative delay with a positive period is well defined in the source. For example, duration 1000 and delay -200 give a period of 800, and a loop then starts at progress 0.2. Delays below `-duration` give a negative period and are excluded too. The delay-window lemmas read the delay as a leading pause.
- `loops` is modelled as a natural number or unbounded. A fractional or negative `loops` behaves in the source like the next integer up, or like 0. It is not represented.
- An easing key that is not in the table cannot be written. In the source it makes `easingFunction` undefined, and the first frame throws.
- `ControllableAnimation.Engine.Reset`: events carry no callback identity. So the model does not tell apart the `onProgress` that `reset`'s closure captured (possibly from an older render) and the current one that frames use.
- The registry's table serves easeInOutExpo as written. The corrected curve `Easings.EaseInOutExpoFixed` is used only by the corrected table `EasingRegistry.EaseCorrected`. See Findings.
- EngineProperties.PauseResumeNoJump requires the last frame before the pause to come before the end of its loop. At the loop's end the source does jump: a pause right after a rollover skips the next loop. See Findings and `EngineProperties.PauseAfterRolloverSkipsLoop`.
- Restarting with `start` after the animation finished, without `reset`, resumes from `progressWithDelay` = 1 and completes a loop at once. The model computes this (the finish branch keeps `progressWithDelay`), but no lemma states it.
- The easing table has 31 entries in the code, and the model follows the code: linear, then In/Out/InOut for Sine, Quad, Cubic, Quart, Quint, Expo, Circ, Back, Elastic and Bounce.
- The older vendored package copy under `example/.yalc/` is a different release with different semantics, and is not part of this model.
- `lib/cjs/useControllableAnimation.d.ts` (type declarations) and `lib/cjs/index.js` (a re-export) carry no behaviour.
- The example application under `example/src/` is UI and DOM code and is not part of this model. That includes `useScreenBreakpoint.tsx`.

## Findings

| source | as written | input that shows it | evidently intended | confidence | as-written member | corrected member |
|---|---|---|---|---|---|---|
| src/useControllableAnimation.tsx:105-108 | A frame that completes a loop with loops remaining sets `startTime = timestamp` but leaves `progressWithDelay` at 1. A resume after `pause` derives the start time from that value (lines 88-89) | `loops = 2`: pause from `onLoop(1)`, then start at any later time. The next frame reports loop 1 at progress 1 and finishes, so loop 1 never plays | resume the new loop from its beginning, as a pause anywhere inside a loop resumes where it stopped | not executed; medium | `EngineProperties.PauseAfterRolloverSkipsLoop` | `EngineProperties.FixedPauseResumeNoJump` |
| src/easings.tsx:70-74 | `easeInOutExpo` has no `isZeroOrOne` guard. At v = 1 it takes the upper branch `(2 - pow(2, 10 - 20v)) / 2` = `(2 - 2^-10) / 2` | v = 1 gives 2047/2048, not 1 (the same code is at lib/esm/easings.js:33-35) | pass 0 and 1 through, as easeInExpo, easeOutExpo and the Elastic curves do, so that every curve ends at 1 | not executed; high | `EasingProperties.InOutExpoMissesOne` | `EasingProperties.InOutExpoFixedEndpoints` |

Two further behaviours of the engine are modelled as written and proved as
properties, not corrected:

- A start time of exactly 0 counts as unset (`EngineProperties.ZeroStartTimeIsUnset`).
- `start` after `pause` while a frame is still pending leaves two frame chains running (`EngineProperties.PauseThenStartAddsChain`).
