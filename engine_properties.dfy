/**
  What the frame callback and the controls promise, stated over the step
  functions of module ControllableAnimation.
 */
module EngineProperties {
  import opened ControllableAnimation
  import Easings
  import opened EasingRegistry

  // ---- arithmetic of a frame's two divisions ----

  lemma DivNonpositive(x: real, d: real)
    requires x <= 0.0 && d > 0.0
    ensures x / d <= 0.0
  {
    assert (x / d) * d == x;
  }

  lemma DivInUnit(x: real, d: real)
    requires 0.0 <= x <= d && d > 0.0
    ensures 0.0 <= x / d <= 1.0
  {
    assert (x / d) * d == x;
  }

  lemma DivBelowOne(x: real, d: real)
    requires x < d && d > 0.0
    ensures x / d < 1.0
  {
    assert (x / d) * d == x;
  }

  lemma DivAtLeastOne(x: real, d: real)
    requires x >= d && d > 0.0
    ensures x / d >= 1.0
  {
    assert (x / d) * d == x;
  }

  lemma MulDivCancel(p: real, d: real)
    requires d > 0.0
    ensures (p * d) / d == p
  {
  }

  lemma ScaledBelow(e: real, p: real, d: real)
    requires 0.0 <= p < 1.0 && d > 0.0 && e == p * d
    ensures e < d
  {
  }

  /** The time a frame at `t` counts as elapsed in the current loop. */
  function Elapsed(s: Snapshot, c: Config, t: real): real
  {
    t - EffectiveStart(s, c, t)
  }

  // ---- the loop period ----

  /** Every loop lasts `duration + delay`, except that with `alternateDelay`
      and `alternate` the odd (alternated) loops last only `duration`. */
  lemma LoopDurationRule(c: Config, loop: nat)
    ensures !c.alternateDelay || !c.alternate ==> LoopDuration(c, loop) == c.duration + c.delay
    ensures c.alternateDelay && c.alternate ==>
      LoopDuration(c, loop) == if loop % 2 == 0 then c.duration + c.delay else c.duration
  {
  }

  // ---- one frame ----

  /** A frame's `progressWithDelay` as a function of the elapsed time e and
      the loop period L: e / L held in [0, 1]. */
  lemma WithDelayFollowsElapsed(s: Snapshot, c: Config, t: real)
    requires ValidConfig(c) && s.pending > 0 && s.active
    ensures var e, period, r := Elapsed(s, c, t), LoopDuration(c, s.loop), FrameStep(s, c, t).next;
      && (e <= 0.0 ==> r.progressWithDelay == 0.0)
      && (0.0 <= e <= period ==> r.progressWithDelay == e / period)
      && (e >= period ==> r.progressWithDelay == 1.0)
  {
    var e, period := Elapsed(s, c, t), LoopDuration(c, s.loop);
    if e <= 0.0 { DivNonpositive(e, period); }
    if 0.0 <= e <= period { DivInUnit(e, period); }
    if e >= period { DivAtLeastOne(e, period); }
  }

  /** A frame's `progress` as a function of the elapsed time e and the loop
      period L: 0 through the leading delay window (e <= L - duration), then
      rising linearly, and 1 from e = L on. */
  lemma ProgressFollowsElapsed(s: Snapshot, c: Config, t: real)
    requires ValidConfig(c) && s.pending > 0 && s.active
    ensures var e, period, r := Elapsed(s, c, t), LoopDuration(c, s.loop), FrameStep(s, c, t).next;
      && (e <= period - c.duration ==> r.progress == 0.0)
      && (period - c.duration <= e <= period ==> r.progress == (e - (period - c.duration)) / c.duration)
      && (e >= period ==> r.progress == 1.0)
  {
    var e, period := Elapsed(s, c, t), LoopDuration(c, s.loop);
    var lead := period - c.duration;
    if e <= lead { DivNonpositive(e - lead, c.duration); }
    if lead <= e <= period { DivInUnit(e - lead, c.duration); }
    if e >= period { DivAtLeastOne(e - lead, c.duration); }
  }

  /** While the elapsed time is inside the leading delay window, progress
      stays 0, the loop goes on, and the curve is fed 0 (1 on an alternated
      loop). */
  lemma DelayWindowHoldsProgress(s: Snapshot, c: Config, t: real)
    requires ValidConfig(c) && s.pending > 0 && s.active
    requires Elapsed(s, c, t) <= LoopDuration(c, s.loop) - c.duration
    ensures var r := FrameStep(s, c, t);
      && r.next.progress == 0.0 && r.next.active && r.next.loop == s.loop
      && r.events == [Progress(c.easing(if ShouldAlternate(c, s.loop) then 1.0 else 0.0),
                               0.0, r.next.progressWithDelay, s.loop)]
  {
    ProgressFollowsElapsed(s, c, t);
  }

  /** A frame reports its own progress values and the loop it ran in; the
      curve is fed `1 - progress` on alternated loops and `progress` otherwise. */
  lemma FrameReportsProgress(s: Snapshot, c: Config, t: real)
    requires ValidConfig(c) && s.pending > 0 && s.active
    ensures var r := FrameStep(s, c, t);
      var p := r.next.progress;
      && |r.events| >= 1
      && r.events[0] == Progress(c.easing(if ShouldAlternate(c, s.loop) then 1.0 - p else p),
                                 p, r.next.progressWithDelay, s.loop)
  {
  }

  /** The loop boundary. A frame completes the loop exactly when the elapsed
      time reaches the loop period; then it either starts the next loop at
      `t` (reporting it to `onLoop` if given) or, with no loops left, stops,
      zeroes the loop counter and forgets the start time (reporting to
      `onFinish` if given). Otherwise the loop goes on from the start time
      the frame computed against, which it stores. */
  lemma LoopBoundary(s: Snapshot, c: Config, t: real)
    requires ValidConfig(c) && s.pending > 0 && s.active
    ensures var e, period, r := Elapsed(s, c, t), LoopDuration(c, s.loop), FrameStep(s, c, t);
      && (e < period ==>
            && r.next.active && r.next.loop == s.loop && |r.events| == 1
            && r.next.startTime == Some(EffectiveStart(s, c, t)))
      && (e >= period && LoopsRemain(c.loops, s.loop + 1) ==>
            && r.next.active && r.next.loop == s.loop + 1 && r.next.startTime == Some(t)
            && r.events[1..] == if c.hasOnLoop then [Loop(s.loop + 1)] else [])
      && (e >= period && !LoopsRemain(c.loops, s.loop + 1) ==>
            && !r.next.active && r.next.loop == 0 && r.next.startTime == None
            && r.events[1..] == if c.hasOnFinish then [Finish] else [])
  {
    var e, period := Elapsed(s, c, t), LoopDuration(c, s.loop);
    ProgressFollowsElapsed(s, c, t);
    if e < period {
      var x := (e - (period - c.duration)) / c.duration;
      DivBelowOne(e - (period - c.duration), c.duration);
      assert FrameStep(s, c, t).next.progress <= x < 1.0 || FrameStep(s, c, t).next.progress == 0.0;
    }
  }

  /** Two frames in a row: the second one measures its elapsed time from the
      start the first one stored. Within a loop that is the first frame's
      elapsed time plus the time between the frames; after a rollover it is
      the time since the rolling frame. A stored start of exactly 0 would be
      falsy, so it is excluded (see `ZeroStartTimeIsUnset`). */
  lemma ElapsedAdvancesWithClock(s: Snapshot, c: Config, t1: real, t2: real)
    requires ValidConfig(c) && s.pending > 0 && s.active
    ensures var e1, s1 := Elapsed(s, c, t1), FrameStep(s, c, t1).next;
      && (e1 < LoopDuration(c, s.loop) && EffectiveStart(s, c, t1) != 0.0 ==>
            s1.loop == s.loop && Elapsed(s1, c, t2) == e1 + (t2 - t1))
      && (e1 >= LoopDuration(c, s.loop) && LoopsRemain(c.loops, s.loop + 1) && t1 != 0.0 ==>
            s1.loop == s.loop + 1 && Elapsed(s1, c, t2) == t2 - t1)
  {
    LoopBoundary(s, c, t1);
  }

  /** The first loop after reset and start, timed from the first frame at
      `t0`: `progressWithDelay` rises as (t - t0) / (duration + delay) and
      reaches 1 at t0 + duration + delay; `progress` stays 0 until t0 + delay
      and then rises as (t - t0 - delay) / duration. */
  lemma FirstLoopTimeline(s: Snapshot, c: Config, t0: real, t: real)
    requires ValidConfig(c) && t0 != 0.0 && t0 <= t
    requires StartStep(ResetStep(s).next).pending > 0
    ensures var f1 := FrameStep(StartStep(ResetStep(s).next), c, t0).next;
      var f2 := FrameStep(f1, c, t).next;
      var period := c.duration + c.delay;
      && (t < t0 + period ==> f2.active && f2.loop == 0 && f2.progressWithDelay == (t - t0) / period)
      && (t <= t0 + c.delay ==> f2.progress == 0.0)
      && (t0 + c.delay <= t < t0 + period ==> f2.progress == (t - t0 - c.delay) / c.duration)
      && (t >= t0 + period ==> f2.progressWithDelay == 1.0 && f2.progress == 1.0)
  {
    var s0 := StartStep(ResetStep(s).next);
    ResetThenStartBeginsFresh(s, c, t0);
    var f1 := FrameStep(s0, c, t0).next;
    assert LoopDuration(c, 0) == c.duration + c.delay;
    assert Elapsed(f1, c, t) == t - t0;
    WithDelayFollowsElapsed(f1, c, t);
    ProgressFollowsElapsed(f1, c, t);
    LoopBoundary(f1, c, t);
  }

  /** The frame that completes a loop feeds the resolved curve its end point:
      a named curve then reports 1, or 0 on an alternated loop (for the
      curves that end at 1, see `RegisteredEndpoints`). */
  lemma LoopEndReportsCurveEnd(m: Easings.Math, name: EasingName, s: Snapshot, c: Config, t: real)
    requires ExactAtZeroAndOne(m) && EndsAtOne(name)
    requires c.easing == Resolve(m, Named(name))
    requires ValidConfig(c) && s.pending > 0 && s.active
    requires Elapsed(s, c, t) >= LoopDuration(c, s.loop)
    ensures FrameStep(s, c, t).events[0].eased == if ShouldAlternate(c, s.loop) then 0.0 else 1.0
  {
    ProgressFollowsElapsed(s, c, t);
    FrameReportsProgress(s, c, t);
    RegisteredEndpoints(m, name);
    assert c.easing(1.0) == Ease(m, name, 1.0);
    assert c.easing(0.0) == Ease(m, name, 0.0);
  }

  /** With `loops` unbounded a frame never finishes the animation. */
  lemma UnboundedNeverFinishes(s: Snapshot, c: Config, t: real)
    requires ValidConfig(c) && s.pending > 0 && s.active
    requires c.loops.Unbounded?
    ensures FrameStep(s, c, t).next.active
    ensures Finish !in FrameStep(s, c, t).events
  {
  }

  /** With a finite `loops`, the loop counter of a running engine stays
      below it. */
  lemma LoopStaysBelowCount(s: Snapshot, c: Config, t: real)
    requires ValidConfig(c) && s.pending > 0
    requires c.loops.Finite? && s.loop < c.loops.count
    ensures FrameStep(s, c, t).next.loop < c.loops.count
  {
  }

  // ---- resuming ----

  /** A frame with no start time derives one from the stored
      `progressWithDelay`, so that this frame's elapsed fraction is exactly
      that value: resuming does not jump. */
  lemma ResumeKeepsProgressWithDelay(s: Snapshot, c: Config, t: real)
    requires ValidConfig(c) && s.pending > 0 && s.active && InRange(s)
    requires StartUnset(s.startTime)
    ensures Elapsed(s, c, t) == s.progressWithDelay * LoopDuration(c, s.loop)
    ensures Elapsed(s, c, t) / LoopDuration(c, s.loop) == s.progressWithDelay
    ensures FrameStep(s, c, t).next.progressWithDelay == s.progressWithDelay
  {
    var period := LoopDuration(c, s.loop);
    MulDivCancel(s.progressWithDelay, period);
    WithDelayFollowsElapsed(s, c, t);
  }

  /** Pause then start, with the configuration unchanged: the first frame
      after resuming reports exactly what the last frame before pausing
      reported, whatever the two timestamps, provided that last frame came
      before the end of its loop (so it did not complete it). */
  lemma PauseResumeNoJump(s: Snapshot, c: Config, t1: real, t2: real)
    requires ValidConfig(c) && s.pending > 0 && s.active
    requires Elapsed(s, c, t1) < LoopDuration(c, s.loop)
    ensures var before := FrameStep(s, c, t1);
      var after := FrameStep(StartStep(PauseStep(before.next)), c, t2);
      && after.next.progress == before.next.progress
      && after.next.progressWithDelay == before.next.progressWithDelay
      && after.next.loop == before.next.loop
      && after.events == before.events
  {
    var period := LoopDuration(c, s.loop);
    var e1 := Elapsed(s, c, t1);
    var s1 := FrameStep(s, c, t1).next;
    var s2 := StartStep(PauseStep(s1));
    WithDelayFollowsElapsed(s, c, t1);
    ProgressFollowsElapsed(s, c, t1);
    LoopBoundary(s, c, t1);
    assert s1.loop == s.loop;
    ResumeKeepsProgressWithDelay(s2, c, t2);
    WithDelayFollowsElapsed(s2, c, t2);
    ProgressFollowsElapsed(s2, c, t2);
    var e2 := Elapsed(s2, c, t2);
    if e1 <= 0.0 {
      assert s1.progressWithDelay == 0.0;
      assert e2 == 0.0;
    } else {
      assert e1 < period;
      assert e2 == (e1 / period) * period;
      MulDivCancel(e1, period);
      assert e2 == e1;
    }
  }

  /** Pause right after a frame that rolled over to the next loop, then
      start: that frame left `progressWithDelay` at 1, so the resumed frame
      derives a start time one whole period back, reports the new loop at
      progress 1 and rolls over again (or finishes). The loop that had just
      begun is skipped, whatever the resume timestamp. */
  lemma PauseAfterRolloverSkipsLoop(s: Snapshot, c: Config, t1: real, t2: real)
    requires ValidConfig(c) && s.pending > 0 && s.active
    requires Elapsed(s, c, t1) >= LoopDuration(c, s.loop) && LoopsRemain(c.loops, s.loop + 1)
    ensures var before := FrameStep(s, c, t1);
      var after := FrameStep(StartStep(PauseStep(before.next)), c, t2);
      && before.next.active && before.next.loop == s.loop + 1
      && after.events[0].uneasedProgress == 1.0 && after.events[0].loop == s.loop + 1
      && (LoopsRemain(c.loops, s.loop + 2) ==> after.next.active && after.next.loop == s.loop + 2)
      && (!LoopsRemain(c.loops, s.loop + 2) ==> !after.next.active)
  {
    var s1 := FrameStep(s, c, t1).next;
    var s2 := StartStep(PauseStep(s1));
    WithDelayFollowsElapsed(s, c, t1);
    LoopBoundary(s, c, t1);
    assert s1.progressWithDelay == 1.0;
    ResumeKeepsProgressWithDelay(s2, c, t2);
    ProgressFollowsElapsed(s2, c, t2);
    FrameReportsProgress(s2, c, t2);
    LoopBoundary(s2, c, t2);
  }

  /** The frame step with the rollover also rewinding `progressWithDelay` to
      0, as the start of a new loop: a later derived start time then resumes
      the new loop from its beginning. */
  function FrameStepFixed(s: Snapshot, c: Config, t: real): (r: StepResult)
    requires ValidConfig(c) && s.pending > 0
  {
    var r := FrameStep(s, c, t);
    if s.active && r.next.active && r.next.loop == s.loop + 1
    then StepResult(r.next.(progressWithDelay := 0.0), r.events)
    else r
  }

  /** With the corrected step every frame that leaves the engine running
      leaves a stored position strictly inside the loop, and the state in
      range. */
  lemma FixedFrameLeavesResumablePosition(s: Snapshot, c: Config, t: real)
    requires ValidConfig(c) && s.pending > 0 && InRange(s)
    ensures InRange(FrameStepFixed(s, c, t).next)
    ensures FrameStepFixed(s, c, t).next.active ==> FrameStepFixed(s, c, t).next.progressWithDelay < 1.0
  {
    if s.active {
      var e, period := Elapsed(s, c, t), LoopDuration(c, s.loop);
      WithDelayFollowsElapsed(s, c, t);
      LoopBoundary(s, c, t);
      if 0.0 < e < period { DivBelowOne(e, period); }
    }
  }

  /** With the corrected step, pause then start never jumps: whatever the
      last frame before the pause did (carry on or roll over), the first
      frame after resuming stays in the loop that frame left, without
      completing it, and reports the stored `progressWithDelay`. */
  lemma FixedPauseResumeNoJump(s: Snapshot, c: Config, t1: real, t2: real)
    requires ValidConfig(c) && s.pending > 0 && s.active && InRange(s)
    requires FrameStepFixed(s, c, t1).next.active
    ensures var before := FrameStepFixed(s, c, t1);
      var after := FrameStepFixed(StartStep(PauseStep(before.next)), c, t2);
      && after.next.active && after.next.loop == before.next.loop
      && after.events == [after.events[0]]
      && after.events[0].progressWithDelay == before.next.progressWithDelay
      && after.events[0].loop == before.next.loop
      && (before.next.loop == s.loop + 1 ==> after.events[0].uneasedProgress == 0.0)
  {
    var s1 := FrameStepFixed(s, c, t1).next;
    FixedFrameLeavesResumablePosition(s, c, t1);
    ResumeAfterPause(s1, c, t2);
    if s1.loop == s.loop + 1 {
      var s2 := StartStep(PauseStep(s1));
      assert s1.progressWithDelay == 0.0;
      DerivedStartElapsed(s2, c, t2);
      ProgressFollowsElapsed(s2, c, t2);
      FrameReportsProgress(s2, c, t2);
    }
  }

  /** Resuming from a running state whose stored position is inside the loop
      stays in that loop, and the corrected step agrees with the source's. */
  lemma ResumeAfterPause(s1: Snapshot, c: Config, t2: real)
    requires ValidConfig(c) && InRange(s1) && s1.active && s1.progressWithDelay < 1.0
    ensures var s2 := StartStep(PauseStep(s1));
      var after := FrameStepFixed(s2, c, t2);
      && after == FrameStep(s2, c, t2)
      && after.next.active && after.next.loop == s1.loop
      && after.events == [after.events[0]]
      && after.events[0].progressWithDelay == s1.progressWithDelay
      && after.events[0].loop == s1.loop
  {
    var s2 := StartStep(PauseStep(s1));
    assert s2.progressWithDelay == s1.progressWithDelay && s2.loop == s1.loop;
    ResumedFrameInsideLoop(s2, c, t2);
    LoopBoundary(s2, c, t2);
    FrameReportsProgress(s2, c, t2);
  }

  /** A derived start time from a stored position strictly inside the loop
      puts the frame strictly before the loop's end. */
  lemma ResumedFrameInsideLoop(s: Snapshot, c: Config, t: real)
    requires ValidConfig(c) && s.pending > 0 && s.active && InRange(s)
    requires StartUnset(s.startTime) && s.progressWithDelay < 1.0
    ensures Elapsed(s, c, t) < LoopDuration(c, s.loop)
  {
    DerivedStartElapsed(s, c, t);
    ScaledBelow(Elapsed(s, c, t), s.progressWithDelay, LoopDuration(c, s.loop));
  }

  /** With no start time, the elapsed time is the stored fraction of the
      period. */
  lemma DerivedStartElapsed(s: Snapshot, c: Config, t: real)
    requires StartUnset(s.startTime)
    ensures Elapsed(s, c, t) == s.progressWithDelay * LoopDuration(c, s.loop)
  {
  }

  /** After reset and start, the next frame begins a fresh loop from 0 at
      its own timestamp. */
  lemma ResetThenStartBeginsFresh(s: Snapshot, c: Config, t: real)
    requires ValidConfig(c)
    requires StartStep(ResetStep(s).next).pending > 0
    ensures var r := FrameStep(StartStep(ResetStep(s).next), c, t);
      && r.next.progress == 0.0 && r.next.progressWithDelay == 0.0
      && r.next.loop == 0 && r.next.active && r.next.startTime == Some(t)
      && r.events == [Progress(c.easing(0.0), 0.0, 0.0, 0)]
  {
    var s1 := StartStep(ResetStep(s).next);
    WithDelayFollowsElapsed(s1, c, t);
    ProgressFollowsElapsed(s1, c, t);
    LoopBoundary(s1, c, t);
  }

  /** `start` after `pause` requests a frame even when the frame requested
      before the pause is still pending; that stale frame finds the engine
      active and re-requests too, so two frame chains then run. */
  lemma PauseThenStartAddsChain(s: Snapshot, c: Config, t: real)
    requires ValidConfig(c) && s.active && s.pending > 0
    ensures StartStep(PauseStep(s)).pending == s.pending + 1
    ensures FrameStep(StartStep(PauseStep(s)), c, t).next.pending == s.pending + 1
  {
  }

  /** `start` is a no-op on an engine it has already started. */
  lemma StartIdempotent(s: Snapshot)
    ensures StartStep(StartStep(s)) == StartStep(s)
  {
  }

  /** `stop` leaves what `reset` leaves, except that the engine is inactive;
      in particular stopping twice is stopping once. */
  lemma StopIsDeactivatedReset(s: Snapshot)
    ensures StopStep(s).next == ResetStep(s).next.(active := false)
    ensures StopStep(s).events == ResetStep(s).events
    ensures StopStep(StopStep(s).next).next == StopStep(s).next
  {
  }

  /** A start time of exactly 0 is falsy, so a frame of a running engine
      treats it as unset and derives a new one. */
  lemma ZeroStartTimeIsUnset(s: Snapshot, c: Config, t: real)
    requires ValidConfig(c) && s.pending > 0 && s.active
    requires s.startTime == Some(0.0)
    ensures FrameStep(s, c, t) == FrameStep(s.(startTime := None), c, t)
  {
    var unset := s.(startTime := None);
    var start := EffectiveStart(s, c, t);
    assert start == EffectiveStart(unset, c, t) == t - s.progressWithDelay * LoopDuration(c, s.loop);
    assert unset.loop == s.loop && unset.pending == s.pending && unset.active;
  }

  // ---- runs of frames ----

  /** Delivering frames at the given timestamps, each with the configuration
      current at that frame, while requests are pending. */
  function Run(s: Snapshot, frames: seq<(Config, real)>): (r: StepResult)
    requires forall i :: 0 <= i < |frames| ==> ValidConfig(frames[i].0)
    decreases |frames|
  {
    if |frames| == 0 || s.pending == 0 then StepResult(s, [])
    else
      var first := FrameStep(s, frames[0].0, frames[0].1);
      var rest := Run(first.next, frames[1..]);
      StepResult(rest.next, first.events + rest.events)
  }

  /** Whatever the frames and configurations, progress values stay in [0, 1]. */
  lemma {:induction false} RunKeepsRange(s: Snapshot, frames: seq<(Config, real)>)
    requires forall i :: 0 <= i < |frames| ==> ValidConfig(frames[i].0)
    requires InRange(s)
    ensures InRange(Run(s, frames).next)
    decreases |frames|
  {
    if |frames| > 0 && s.pending > 0 {
      RunKeepsRange(FrameStep(s, frames[0].0, frames[0].1).next, frames[1..]);
    }
  }

  /** Frames delivered to an inactive engine only drain the pending requests:
      no callback fires and nothing else changes. */
  lemma {:induction false} RunWhileInactiveIsSilent(s: Snapshot, frames: seq<(Config, real)>)
    requires forall i :: 0 <= i < |frames| ==> ValidConfig(frames[i].0)
    requires !s.active
    ensures Run(s, frames).events == []
    ensures Run(s, frames).next == s.(pending := Run(s, frames).next.pending)
    ensures Run(s, frames).next.pending <= s.pending
    decreases |frames|
  {
    if |frames| > 0 && s.pending > 0 {
      RunWhileInactiveIsSilent(FrameStep(s, frames[0].0, frames[0].1).next, frames[1..]);
    }
  }

  /** One loop without delay, started from the initial state: a frame at t0
      and one at t0 + duration run the content from 0 to 1 and finish, with
      the loop counter back at 0 and one more frame still requested. A first
      timestamp of exactly 0 is excluded: it would be stored as the falsy
      start time 0 (see `ZeroStartTimeIsUnset`). */
  lemma SingleLoopRun(c: Config, t0: real)
    requires ValidConfig(c) && c.delay == 0.0 && c.loops == Finite(1)
    requires t0 != 0.0
    ensures Run(StartStep(Initial), [(c, t0), (c, t0 + c.duration)]) ==
      StepResult(Snapshot(None, 1.0, 1.0, false, 0, 1),
                 [Progress(c.easing(0.0), 0.0, 0.0, 0), Progress(c.easing(1.0), 1.0, 1.0, 0)]
                 + (if c.hasOnFinish then [Finish] else []))
  {
    var frames := [(c, t0), (c, t0 + c.duration)];
    var s0 := StartStep(Initial);
    var f1 := FrameStep(s0, c, t0);
    ResetThenStartBeginsFresh(Initial, c, t0);
    assert f1.next == Snapshot(Some(t0), 0.0, 0.0, true, 0, 1);
    var f2 := FrameStep(f1.next, c, t0 + c.duration);
    assert Elapsed(f1.next, c, t0 + c.duration) == c.duration;
    WithDelayFollowsElapsed(f1.next, c, t0 + c.duration);
    ProgressFollowsElapsed(f1.next, c, t0 + c.duration);
    LoopBoundary(f1.next, c, t0 + c.duration);
    assert f2.next == Snapshot(None, 1.0, 1.0, false, 0, 1);
    assert frames[1..] == [(c, t0 + c.duration)];
    assert frames[1..][1..] == [];
    assert Run(f2.next, frames[1..][1..]) == StepResult(f2.next, []);
    assert Run(f1.next, frames[1..]) == StepResult(f2.next, f2.events);
    assert Run(s0, frames) == StepResult(f2.next, f1.events + f2.events);
  }

  /** A frame exactly one period after the stored start of an undelayed loop
      reports the loop's end, then rolls over at `t` or finishes. */
  lemma FullLoopFrame(s: Snapshot, c: Config, t: real)
    requires ValidConfig(c) && c.delay == 0.0 && s.pending > 0 && s.active
    requires s.startTime == Some(t - c.duration) && t - c.duration != 0.0
    ensures var end := Progress(c.easing(if ShouldAlternate(c, s.loop) then 0.0 else 1.0), 1.0, 1.0, s.loop);
      FrameStep(s, c, t) ==
        if LoopsRemain(c.loops, s.loop + 1) then
          StepResult(Snapshot(Some(t), 1.0, 1.0, true, s.loop + 1, s.pending),
                     [end] + (if c.hasOnLoop then [Loop(s.loop + 1)] else []))
        else
          StepResult(Snapshot(None, 1.0, 1.0, false, 0, s.pending),
                     [end] + (if c.hasOnFinish then [Finish] else []))
  {
    assert Elapsed(s, c, t) == c.duration == LoopDuration(c, s.loop);
    WithDelayFollowsElapsed(s, c, t);
    ProgressFollowsElapsed(s, c, t);
    FrameReportsProgress(s, c, t);
    LoopBoundary(s, c, t);
  }

  /** Three alternating loops without delay, a frame at every loop end: the
      content runs forwards, backwards, forwards; `onLoop` fires exactly
      twice, for loops 1 and 2, and `onFinish` once. Stored start times of
      exactly 0 are excluded, as in `SingleLoopRun`. */
  lemma AlternatingThreeLoopRun(c: Config, t0: real)
    requires ValidConfig(c) && c.delay == 0.0 && c.alternate && c.loops == Finite(3)
    requires t0 != 0.0 && t0 + c.duration != 0.0 && t0 + 2.0 * c.duration != 0.0
    ensures var d := c.duration;
      Run(StartStep(Initial), [(c, t0), (c, t0 + d), (c, t0 + 2.0 * d), (c, t0 + 3.0 * d)]) ==
        StepResult(Snapshot(None, 1.0, 1.0, false, 0, 1),
                   [Progress(c.easing(0.0), 0.0, 0.0, 0)] + AlternatingLoopEnds(c))
  {
    var d := c.duration;
    var frames := [(c, t0), (c, t0 + d), (c, t0 + 2.0 * d), (c, t0 + 3.0 * d)];
    var f1 := FrameStep(StartStep(Initial), c, t0);
    ResetThenStartBeginsFresh(Initial, c, t0);
    assert f1.next == Snapshot(Some(t0), 0.0, 0.0, true, 0, 1);
    assert frames[1..] == [(c, t0 + d), (c, t0 + 2.0 * d), (c, t0 + 3.0 * d)];
    AlternatingLoopEndsRun(c, t0);
  }

  /** What the three loop-end frames of `AlternatingThreeLoopRun` report. */
  function AlternatingLoopEnds(c: Config): seq<Event>
  {
    [Progress(c.easing(1.0), 1.0, 1.0, 0)] + (if c.hasOnLoop then [Loop(1)] else [])
    + [Progress(c.easing(0.0), 1.0, 1.0, 1)] + (if c.hasOnLoop then [Loop(2)] else [])
    + [Progress(c.easing(1.0), 1.0, 1.0, 2)] + (if c.hasOnFinish then [Finish] else [])
  }

  /** The three loop-end frames, from the state the first frame leaves. */
  lemma AlternatingLoopEndsRun(c: Config, t0: real)
    requires ValidConfig(c) && c.delay == 0.0 && c.alternate && c.loops == Finite(3)
    requires t0 != 0.0 && t0 + c.duration != 0.0 && t0 + 2.0 * c.duration != 0.0
    ensures var d := c.duration;
      Run(Snapshot(Some(t0), 0.0, 0.0, true, 0, 1), [(c, t0 + d), (c, t0 + 2.0 * d), (c, t0 + 3.0 * d)]) ==
        StepResult(Snapshot(None, 1.0, 1.0, false, 0, 1), AlternatingLoopEnds(c))
  {
    var d := c.duration;
    var frames := [(c, t0 + d), (c, t0 + 2.0 * d), (c, t0 + 3.0 * d)];
    var s1 := Snapshot(Some(t0), 0.0, 0.0, true, 0, 1);
    var s2 := Snapshot(Some(t0 + d), 1.0, 1.0, true, 1, 1);
    var e2 := [Progress(c.easing(1.0), 1.0, 1.0, 0)] + (if c.hasOnLoop then [Loop(1)] else []);
    assert FrameStep(s1, c, t0 + d) == StepResult(s2, e2) by {
      FullLoopFrame(s1, c, t0 + d);
    }
    assert frames[1..] == [(c, t0 + 2.0 * d), (c, t0 + 3.0 * d)];
    AlternatingLastLoopEndsRun(c, t0);
    assert Run(s1, frames) == StepResult(Snapshot(None, 1.0, 1.0, false, 0, 1), e2 + AlternatingLastLoopEnds(c));
  }

  /** What the frames ending loops 1 and 2 of `AlternatingThreeLoopRun` report. */
  function AlternatingLastLoopEnds(c: Config): seq<Event>
  {
    [Progress(c.easing(0.0), 1.0, 1.0, 1)] + (if c.hasOnLoop then [Loop(2)] else [])
    + [Progress(c.easing(1.0), 1.0, 1.0, 2)] + (if c.hasOnFinish then [Finish] else [])
  }

  /** The frames ending loops 1 and 2, from the state the first rollover leaves. */
  lemma AlternatingLastLoopEndsRun(c: Config, t0: real)
    requires ValidConfig(c) && c.delay == 0.0 && c.alternate && c.loops == Finite(3)
    requires t0 + c.duration != 0.0 && t0 + 2.0 * c.duration != 0.0
    ensures var d := c.duration;
      Run(Snapshot(Some(t0 + d), 1.0, 1.0, true, 1, 1), [(c, t0 + 2.0 * d), (c, t0 + 3.0 * d)]) ==
        StepResult(Snapshot(None, 1.0, 1.0, false, 0, 1), AlternatingLastLoopEnds(c))
  {
    var d := c.duration;
    var frames := [(c, t0 + 2.0 * d), (c, t0 + 3.0 * d)];
    var s2 := Snapshot(Some(t0 + d), 1.0, 1.0, true, 1, 1);
    var s3 := Snapshot(Some(t0 + 2.0 * d), 1.0, 1.0, true, 2, 1);
    var s4 := Snapshot(None, 1.0, 1.0, false, 0, 1);
    var e3 := [Progress(c.easing(0.0), 1.0, 1.0, 1)] + (if c.hasOnLoop then [Loop(2)] else []);
    var e4 := [Progress(c.easing(1.0), 1.0, 1.0, 2)] + (if c.hasOnFinish then [Finish] else []);
    assert FrameStep(s2, c, t0 + 2.0 * d) == StepResult(s3, e3) by {
      FullLoopFrame(s2, c, t0 + 2.0 * d);
    }
    assert FrameStep(s3, c, t0 + 3.0 * d) == StepResult(s4, e4) by {
      FullLoopFrame(s3, c, t0 + 3.0 * d);
    }
    assert frames[1..] == [(c, t0 + 3.0 * d)];
    assert frames[1..][1..] == [];
    assert Run(s4, frames[1..][1..]) == StepResult(s4, []);
    assert Run(s3, frames[1..]) == StepResult(s4, e4);
  }
}
