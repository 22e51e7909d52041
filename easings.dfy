/**
  The easing table: 31 closed-form curves over a progress fraction.

  The polynomial families (linear, Quad, Cubic, Quart, Quint, Back, Bounce) are
  written over `real` exactly as the source writes them. Sine, Expo, Circ and
  Elastic call `Math.cos`, `Math.sin`, `Math.pow` and `Math.sqrt`; those
  primitives are not given bodies here but are passed in as a `Math` record.
  Most facts about those curves hold whatever the primitives are; the
  endpoint facts assume only the primitives' values at 0 and 1 (see
  `EasingRegistry.ExactAtZeroAndOne`).
 */
module Easings {

  /** The host's transcendental primitives, left uninterpreted. */
  datatype Math = Math(
    cos: real -> real,
    sin: real -> real,
    pow: (real, real) -> real,
    sqrt: real -> real)

  /** `Math.PI` as the literal the host prints for it. */
  const Pi: real := 3.141592653589793

  predicate IsZeroOrOne(v: real)
  {
    v == 0.0 || v == 1.0
  }

  function Linear(v: real): real
  {
    v
  }

  // ---- Sine ----

  function EaseInSine(m: Math, v: real): real
  {
    1.0 - m.cos((v * Pi) / 2.0)
  }

  function EaseOutSine(m: Math, v: real): real
  {
    m.sin((v * Pi) / 2.0)
  }

  function EaseInOutSine(m: Math, v: real): real
  {
    (1.0 - m.cos(Pi * v)) / 2.0
  }

  // ---- Quad ----

  function EaseInQuad(v: real): real
  {
    v * v
  }

  function EaseOutQuad(v: real): real
  {
    1.0 - (1.0 - v) * (1.0 - v)
  }

  function EaseInOutQuad(v: real): real
  {
    if v < 0.5 then 2.0 * v * v
    else 1.0 - 2.0 * (1.0 - v) * (1.0 - v)
  }

  // ---- Cubic ----

  function EaseInCubic(v: real): real
  {
    v * v * v
  }

  function EaseOutCubic(v: real): real
  {
    1.0 - (1.0 - v) * (1.0 - v) * (1.0 - v)
  }

  function EaseInOutCubic(v: real): real
  {
    if v < 0.5 then 4.0 * v * v * v
    else 1.0 - 4.0 * (1.0 - v) * (1.0 - v) * (1.0 - v)
  }

  // ---- Quart ----

  function EaseInQuart(v: real): real
  {
    v * v * v * v
  }

  function EaseOutQuart(v: real): real
  {
    1.0 - (1.0 - v) * (1.0 - v) * (1.0 - v) * (1.0 - v)
  }

  function EaseInOutQuart(v: real): real
  {
    if v < 0.5 then 8.0 * v * v * v * v
    else 1.0 - 8.0 * (1.0 - v) * (1.0 - v) * (1.0 - v) * (1.0 - v)
  }

  // ---- Quint ----

  function EaseInQuint(v: real): real
  {
    v * v * v * v * v
  }

  function EaseOutQuint(v: real): real
  {
    1.0 - (1.0 - v) * (1.0 - v) * (1.0 - v) * (1.0 - v) * (1.0 - v)
  }

  function EaseInOutQuint(v: real): real
  {
    if v < 0.5 then 16.0 * v * v * v * v * v
    else 1.0 - 16.0 * (1.0 - v) * (1.0 - v) * (1.0 - v) * (1.0 - v) * (1.0 - v)
  }

  // ---- Expo ----

  function EaseInExpo(m: Math, v: real): real
  {
    if IsZeroOrOne(v) then v else m.pow(2.0, 10.0 * v - 10.0)
  }

  function EaseOutExpo(m: Math, v: real): real
  {
    if IsZeroOrOne(v) then v else 1.0 - m.pow(2.0, -10.0 * v)
  }

  /** `easeInOutExpo` as the source writes it: the upper half has no
      pass-through at 1 (see `InOutExpoMissesOne`). */
  function EaseInOutExpo(m: Math, v: real): real
  {
    if v < 0.5 then EaseInExpo(m, 2.0 * v) / 2.0
    else (2.0 - m.pow(2.0, 10.0 - 20.0 * v)) / 2.0
  }

  /** `easeInOutExpo` with the pass-through at 0 and 1 that the other Expo
      curves have. It differs from the source's curve at 1 only, since the
      source's already gives 0 at 0. */
  function EaseInOutExpoFixed(m: Math, v: real): (r: real)
    ensures v != 1.0 ==> r == EaseInOutExpo(m, v)
    ensures v == 1.0 ==> r == 1.0
  {
    if IsZeroOrOne(v) then v else EaseInOutExpo(m, v)
  }

  // ---- Circ ----

  function EaseInCirc(m: Math, v: real): real
  {
    1.0 - m.sqrt(1.0 - v * v)
  }

  function EaseOutCirc(m: Math, v: real): real
  {
    m.sqrt(1.0 - (v - 1.0) * (v - 1.0))
  }

  function EaseInOutCirc(m: Math, v: real): real
  {
    if v < 0.5 then (1.0 - m.sqrt(1.0 - 4.0 * v * v)) / 2.0
    else (1.0 + m.sqrt(1.0 - 4.0 * (1.0 - v) * (1.0 - v))) / 2.0
  }

  // ---- Back ----

  function EaseInBack(v: real): real
  {
    2.70158 * v * v * v - 1.70158 * v * v
  }

  function EaseOutBack(v: real): real
  {
    1.0 + 2.70158 * (v - 1.0) * (v - 1.0) * (v - 1.0) + 1.70158 * (v - 1.0) * (v - 1.0)
  }

  function EaseInOutBack(v: real): real
  {
    if v < 0.5 then 2.0 * v * v * (3.595 * 2.0 * v - 2.595)
    else 2.0 * (v - 1.0) * (v - 1.0) * (3.595 * (v * 2.0 - 2.0) + 2.595) + 1.0
  }

  // ---- Elastic ----

  function EaseInElastic(m: Math, v: real): real
  {
    if IsZeroOrOne(v) then v
    else -m.pow(2.0, 10.0 * v - 10.0) * m.sin((10.0 * v - 10.75) * 2.0 * Pi / 3.0)
  }

  function EaseOutElastic(m: Math, v: real): real
  {
    if IsZeroOrOne(v) then v
    else 1.0 + m.pow(2.0, -10.0 * v) * m.sin((10.0 * v - 0.75) * 2.0 * Pi / 3.0)
  }

  function EaseInOutElastic(m: Math, v: real): real
  {
    if IsZeroOrOne(v) then v
    else if v < 0.5 then -m.pow(2.0, 20.0 * v - 10.0) * m.sin((20.0 * v - 11.125) * 2.0 * Pi / 4.5) / 2.0
    else 1.0 + m.pow(2.0, 10.0 - 20.0 * v) * m.sin((20.0 * v - 11.125) * 2.0 * Pi / 4.5) / 2.0
  }

  // ---- Bounce ----

  const BounceN: real := 7.5625
  const BounceD: real := 2.75

  function EaseOutBounce(v: real): real
  {
    if v < 1.0 / BounceD then BounceN * v * v
    else if v < 2.0 / BounceD then 0.75 + BounceN * (v - 1.5 / BounceD) * (v - 1.5 / BounceD)
    else if v < 2.5 / BounceD then 0.9375 + BounceN * (v - 2.25 / BounceD) * (v - 2.25 / BounceD)
    else 0.984375 + BounceN * (v - 2.625 / BounceD) * (v - 2.625 / BounceD)
  }

  function EaseInBounce(v: real): real
  {
    1.0 - EaseOutBounce(1.0 - v)
  }

  function EaseInOutBounce(v: real): real
  {
    if v < 0.5 then (1.0 - EaseOutBounce(1.0 - 2.0 * v)) / 2.0
    else (1.0 + EaseOutBounce(2.0 * v - 1.0)) / 2.0
  }
}
