/**
  The progress engine behind `useControllableAnimation`: a frame callback
  that turns a timestamp into clamped progress values (applying delay,
  alternation and loop counting) and the start / pause / reset / stop
  controls.

  The mutable refs become the fields of class `Engine`; each of its methods
  is proved to agree with a pure step function on `Snapshot`, a value copy of
  those fields, and the lemmas in module EngineProperties are stated over the
  step functions. The configuration is a value passed to every frame, because
  the hook re-reads it from `propsRef` on every frame. Callbacks become the
  emitted `Event`s; `requestAnimationFrame` is the `pending` counter of frame
  requests not yet delivered.
 */
module ControllableAnimation {

  datatype Option<T> = None | Some(value: T)

  /** The `loops` option: a count, or JavaScript's `Infinity` (the default). */
  datatype LoopCount = Finite(count: nat) | Unbounded

  /** The configuration the frame callback reads from `propsRef`. The easing
      is already resolved to a curve; `hasOnLoop` and `hasOnFinish` say
      whether the optional callbacks were supplied. */
  datatype Config = Config(
    duration: real,
    delay: real,
    alternateDelay: bool,
    loops: LoopCount,
    alternate: bool,
    easing: real -> real,
    hasOnLoop: bool,
    hasOnFinish: bool)

  /** A positive duration and a non-negative delay, so that the divisions of
      a frame are by positive numbers. */
  predicate ValidConfig(c: Config)
  {
    c.duration > 0.0 && c.delay >= 0.0
  }

  /** A callback invocation: `onProgress(eased, {uneasedProgress,
      progressWithDelay, loop})`, `onLoop(loop)` or `onFinish()`. */
  datatype Event =
    | Progress(eased: real, uneasedProgress: real, progressWithDelay: real, loop: nat)
    | Loop(loop: nat)
    | Finish

  /** What `reset` reports: everything at zero. */
  const ResetEvent: Event := Progress(0.0, 0.0, 0.0, 0)

  /** The engine's refs as a value, plus the frame requests still pending. */
  datatype Snapshot = Snapshot(
    startTime: Option<real>,
    progress: real,
    progressWithDelay: real,
    active: bool,
    loop: nat,
    pending: nat)

  /** The state right after the hook first runs. */
  const Initial: Snapshot := Snapshot(None, 0.0, 0.0, false, 0, 0)

  /** A step's new state and the callbacks it invoked, in order. */
  datatype StepResult = StepResult(next: Snapshot, events: seq<Event>)

  /** Both progress values lie in [0, 1]. */
  predicate InRange(s: Snapshot)
  {
    0.0 <= s.progress <= 1.0 && 0.0 <= s.progressWithDelay <= 1.0
  }

  /** `Math.max(min, Math.min(val, max))`. */
  function Clamp(val: real, min: real, max: real): (r: real)
    ensures r >= min
    ensures min <= max ==> r <= max
    ensures min <= val <= max ==> r == val
    ensures val <= min ==> r == min
    ensures min <= max <= val ==> r == max
  {
    var low := if val < max then val else max;
    if min > low then min else low
  }

  /** `!startTime.current`: no start time, or the falsy start time 0. */
  predicate StartUnset(startTime: Option<real>)
  {
    startTime.None? || startTime.value == 0.0
  }

  /** `alternate && loop % 2`: odd loops of an alternating animation run backwards. */
  predicate ShouldAlternate(c: Config, loop: nat)
  {
    c.alternate && loop % 2 == 1
  }

  /** The length of the current loop: the duration, plus the delay unless
      `alternateDelay` drops it on an alternated loop. */
  function LoopDuration(c: Config, loop: nat): (d: real)
    ensures d == c.duration || d == c.duration + c.delay
    ensures ValidConfig(c) ==> d >= c.duration > 0.0
  {
    c.duration + (if !c.alternateDelay || !ShouldAlternate(c, loop) then c.delay else 0.0)
  }

  /** `loop < loops` with `loops` possibly `Infinity`. */
  predicate LoopsRemain(loops: LoopCount, loop: nat)
  {
    loops.Unbounded? || loop < loops.count
  }

  /** The start time a frame computes against: the stored one, or, when it is
      unset, one derived so that the stored `progressWithDelay` is kept. */
  function EffectiveStart(s: Snapshot, c: Config, t: real): real
  {
    if StartUnset(s.startTime) then t - s.progressWithDelay * LoopDuration(c, s.loop)
    else s.startTime.value
  }

  /** One delivery of the frame callback at timestamp `t`. It consumes the
      pending request that delivered it; an active engine requests the next
      frame, recomputes its progress and reports it, and then rolls over to
      the next loop or finishes when the loop's content is complete. */
  function FrameStep(s: Snapshot, c: Config, t: real): (r: StepResult)
    requires ValidConfig(c) && s.pending > 0
    ensures !s.active ==> r.next == s.(pending := s.pending - 1) && r.events == []
    ensures s.active ==> r.next.pending == s.pending && InRange(r.next)
  {
    if !s.active then StepResult(s.(pending := s.pending - 1), [])
    else
      var loopDuration := LoopDuration(c, s.loop);
      var start := EffectiveStart(s, c, t);
      var withDelay := Clamp((t - start) / loopDuration, 0.0, 1.0);
      var progress := Clamp((t - start - (loopDuration - c.duration)) / c.duration, 0.0, 1.0);
      var eased := c.easing(if ShouldAlternate(c, s.loop) then 1.0 - progress else progress);
      var report := Progress(eased, progress, withDelay, s.loop);
      if progress != 1.0 then
        StepResult(Snapshot(Some(start), progress, withDelay, true, s.loop, s.pending), [report])
      else if LoopsRemain(c.loops, s.loop + 1) then
        StepResult(Snapshot(Some(t), progress, withDelay, true, s.loop + 1, s.pending),
                   [report] + (if c.hasOnLoop then [Loop(s.loop + 1)] else []))
      else
        StepResult(Snapshot(None, progress, withDelay, false, 0, s.pending),
                   [report] + (if c.hasOnFinish then [Finish] else []))
  }

  /** `start`: a no-op while active; otherwise activate and request a frame,
      even if a frame requested before a `pause` is still pending. */
  function StartStep(s: Snapshot): (r: Snapshot)
    ensures s.active ==> r == s
    ensures !s.active ==> r.active && r.pending == s.pending + 1
    ensures r.startTime == s.startTime && r.progress == s.progress
    ensures r.progressWithDelay == s.progressWithDelay && r.loop == s.loop
  {
    if s.active then s else s.(active := true, pending := s.pending + 1)
  }

  /** `pause`: deactivate and forget the start time; nothing else changes. */
  function PauseStep(s: Snapshot): (r: Snapshot)
    ensures !r.active && r.startTime == None
    ensures r.progress == s.progress && r.progressWithDelay == s.progressWithDelay
    ensures r.loop == s.loop && r.pending == s.pending
  {
    s.(active := false, startTime := None)
  }

  /** `reset`: zero the progress state and report it at once; `active` and
      the pending frames are left as they are. */
  function ResetStep(s: Snapshot): (r: StepResult)
    ensures r.next.startTime == None && r.next.loop == 0
    ensures r.next.progress == 0.0 && r.next.progressWithDelay == 0.0
    ensures r.next.active == s.active && r.next.pending == s.pending
    ensures r.events == [Progress(0.0, 0.0, 0.0, 0)]
  {
    StepResult(s.(startTime := None, progress := 0.0, progressWithDelay := 0.0, loop := 0), [ResetEvent])
  }

  /** `stop`: deactivate, then reset. */
  function StopStep(s: Snapshot): (r: StepResult)
    ensures !r.next.active && r.next.startTime == None && r.next.loop == 0
    ensures r.next.progress == 0.0 && r.next.progressWithDelay == 0.0
    ensures r.next.pending == s.pending
    ensures r.events == [Progress(0.0, 0.0, 0.0, 0)]
  {
    ResetStep(s.(active := false))
  }

  /** The refs of one `useControllableAnimation` instance. */
  class Engine {
    var startTime: Option<real>
    var progress: real
    var progressWithDelay: real
    var active: bool
    var loop: nat
    /** Frame requests made and not yet delivered. */
    var pending: nat

    function Snap(): Snapshot
      reads this
    {
      Snapshot(startTime, progress, progressWithDelay, active, loop, pending)
    }

    ghost predicate Valid()
      reads this
    {
      InRange(Snap())
    }

    /** The refs' initial values. */
    constructor ()
      ensures Valid() && Snap() == Initial
    {
      startTime := None;
      progress := 0.0;
      progressWithDelay := 0.0;
      active := false;
      loop := 0;
      pending := 0;
    }

    /** `loopCallback(timestamp)`, delivered for one pending request. */
    method LoopCallback(c: Config, timestamp: real) returns (emitted: seq<Event>)
      requires Valid() && ValidConfig(c) && pending > 0
      modifies this
      ensures Valid()
      ensures Snap() == FrameStep(old(Snap()), c, timestamp).next
      ensures emitted == FrameStep(old(Snap()), c, timestamp).events
    {
      ghost var before := Snap();
      pending := pending - 1;
      if !active {
        return [];
      }
      pending := pending + 1;  // requestAnimationFrame(loopCallback)

      var shouldAlternate := ShouldAlternate(c, loop);
      var loopDuration := LoopDuration(c, loop);
      if StartUnset(startTime) {
        startTime := Some(timestamp - progressWithDelay * loopDuration);
      }
      var start := startTime.value;
      assert start == EffectiveStart(before, c, timestamp);
      progressWithDelay := Clamp((timestamp - start) / loopDuration, 0.0, 1.0);
      progress := Clamp((timestamp - start - (loopDuration - c.duration)) / c.duration, 0.0, 1.0);
      var eased := c.easing(if shouldAlternate then 1.0 - progress else progress);
      emitted := [Progress(eased, progress, progressWithDelay, loop)];

      if progress == 1.0 {
        loop := loop + 1;
        if LoopsRemain(c.loops, loop) {
          startTime := Some(timestamp);
          if c.hasOnLoop {
            emitted := emitted + [Loop(loop)];
          }
        } else {
          active := false;
          loop := 0;
          startTime := None;
          if c.hasOnFinish {
            emitted := emitted + [Finish];
          }
        }
      }
    }

    /** `start()`. */
    method Start()
      requires Valid()
      modifies this
      ensures Valid()
      ensures Snap() == StartStep(old(Snap()))
    {
      if active {
        return;
      }
      active := true;
      pending := pending + 1;  // requestAnimationFrame(loopCallback)
    }

    /** `pause()`. */
    method Pause()
      requires Valid()
      modifies this
      ensures Valid()
      ensures Snap() == PauseStep(old(Snap()))
    {
      active := false;
      startTime := None;
    }

    /** `reset()`: the report goes to the `onProgress` the closure captured. */
    method Reset() returns (emitted: seq<Event>)
      requires Valid()
      modifies this
      ensures Valid()
      ensures Snap() == ResetStep(old(Snap())).next
      ensures emitted == ResetStep(old(Snap())).events
    {
      startTime := None;
      progress := 0.0;
      progressWithDelay := 0.0;
      loop := 0;
      emitted := [ResetEvent];
    }

    /** `stop()`. */
    method Stop() returns (emitted: seq<Event>)
      requires Valid()
      modifies this
      ensures Valid()
      ensures Snap() == StopStep(old(Snap())).next
      ensures emitted == StopStep(old(Snap())).events
    {
      active := false;
      emitted := Reset();
    }

    /** The autoplay effect: `if (autoplay) start()`, run after mounting and
        whenever `autoplay` changes. */
    method Autoplay(autoplay: bool)
      requires Valid()
      modifies this
      ensures Valid()
      ensures Snap() == if autoplay then StartStep(old(Snap())) else old(Snap())
    {
      if autoplay {
        Start();
      }
    }
  }
}
