/**
  The registry of named easings and the resolution of the `easing` option:
  a name is looked up in the fixed table, a custom function is used as is.
  Names are a datatype, so an unknown key cannot be written down.
 */
module EasingRegistry {
  import Easings

  /** The 31 keys of the easing table. */
  datatype EasingName =
    | Linear
    | EaseInSine | EaseOutSine | EaseInOutSine
    | EaseInQuad | EaseOutQuad | EaseInOutQuad
    | EaseInCubic | EaseOutCubic | EaseInOutCubic
    | EaseInQuart | EaseOutQuart | EaseInOutQuart
    | EaseInQuint | EaseOutQuint | EaseInOutQuint
    | EaseInExpo | EaseOutExpo | EaseInOutExpo
    | EaseInCirc | EaseOutCirc | EaseInOutCirc
    | EaseInBack | EaseOutBack | EaseInOutBack
    | EaseInElastic | EaseOutElastic | EaseInOutElastic
    | EaseInBounce | EaseOutBounce | EaseInOutBounce

  /** The `easing` option: a key of the table or a caller-supplied curve. */
  datatype EasingChoice = Named(name: EasingName) | Custom(curve: real -> real)

  /** The table lookup `easingFunctions[name](v)`, entry for entry as the
      source's table has it (easeInOutExpo included as written). */
  function Ease(m: Easings.Math, name: EasingName, v: real): real
  {
    match name
    case Linear => Easings.Linear(v)
    case EaseInSine => Easings.EaseInSine(m, v)
    case EaseOutSine => Easings.EaseOutSine(m, v)
    case EaseInOutSine => Easings.EaseInOutSine(m, v)
    case EaseInQuad => Easings.EaseInQuad(v)
    case EaseOutQuad => Easings.EaseOutQuad(v)
    case EaseInOutQuad => Easings.EaseInOutQuad(v)
    case EaseInCubic => Easings.EaseInCubic(v)
    case EaseOutCubic => Easings.EaseOutCubic(v)
    case EaseInOutCubic => Easings.EaseInOutCubic(v)
    case EaseInQuart => Easings.EaseInQuart(v)
    case EaseOutQuart => Easings.EaseOutQuart(v)
    case EaseInOutQuart => Easings.EaseInOutQuart(v)
    case EaseInQuint => Easings.EaseInQuint(v)
    case EaseOutQuint => Easings.EaseOutQuint(v)
    case EaseInOutQuint => Easings.EaseInOutQuint(v)
    case EaseInExpo => Easings.EaseInExpo(m, v)
    case EaseOutExpo => Easings.EaseOutExpo(m, v)
    case EaseInOutExpo => Easings.EaseInOutExpo(m, v)
    case EaseInCirc => Easings.EaseInCirc(m, v)
    case EaseOutCirc => Easings.EaseOutCirc(m, v)
    case EaseInOutCirc => Easings.EaseInOutCirc(m, v)
    case EaseInBack => Easings.EaseInBack(v)
    case EaseOutBack => Easings.EaseOutBack(v)
    case EaseInOutBack => Easings.EaseInOutBack(v)
    case EaseInElastic => Easings.EaseInElastic(m, v)
    case EaseOutElastic => Easings.EaseOutElastic(m, v)
    case EaseInOutElastic => Easings.EaseInOutElastic(m, v)
    case EaseInBounce => Easings.EaseInBounce(v)
    case EaseOutBounce => Easings.EaseOutBounce(v)
    case EaseInOutBounce => Easings.EaseInOutBounce(v)
  }

  /** The table with easeInOutExpo replaced by its corrected form. */
  function EaseCorrected(m: Easings.Math, name: EasingName, v: real): real
  {
    if name == EaseInOutExpo then Easings.EaseInOutExpoFixed(m, v) else Ease(m, name, v)
  }

  /** The values of the primitives at 0 and 1 that both exact arithmetic and
      an IEEE-754 host give: cos 0 = 1, sin 0 = 0, sqrt 0 = 0, sqrt 1 = 1. */
  predicate ExactAtZeroAndOne(m: Easings.Math)
  {
    m.cos(0.0) == 1.0 && m.sin(0.0) == 0.0 && m.sqrt(0.0) == 0.0 && m.sqrt(1.0) == 1.0
  }

  /** The entries whose value at 1 does not depend on a primitive evaluated
      at a multiple of the rational `Pi`, nor on `pow(2, -10)`. */
  predicate EndsAtOne(name: EasingName)
  {
    !name.EaseInSine? && !name.EaseOutSine? && !name.EaseInOutSine? && !name.EaseInOutExpo?
  }

  /** Every registered curve maps 0 to 0, and every one but the three Sine
      curves and easeInOutExpo maps 1 to 1. Those four reach 1 at 1 exactly
      when their primitive takes the landmark value there: cos(Pi / 2) = 0,
      sin(Pi / 2) = 1, cos(Pi) = -1 at the rational `Pi`, and pow(2, -10) = 0,
      which the true power 1/1024 is not. */
  lemma RegisteredEndpoints(m: Easings.Math, name: EasingName)
    requires ExactAtZeroAndOne(m)
    ensures Ease(m, name, 0.0) == 0.0
    ensures EndsAtOne(name) ==> Ease(m, name, 1.0) == 1.0
    ensures name == EaseInSine ==> (Ease(m, name, 1.0) == 1.0 <==> m.cos(Easings.Pi / 2.0) == 0.0)
    ensures name == EaseOutSine ==> (Ease(m, name, 1.0) == 1.0 <==> m.sin(Easings.Pi / 2.0) == 1.0)
    ensures name == EaseInOutSine ==> (Ease(m, name, 1.0) == 1.0 <==> m.cos(Easings.Pi) == -1.0)
    ensures name == EaseInOutExpo ==> (Ease(m, name, 1.0) == 1.0 <==> m.pow(2.0, -10.0) == 0.0)
  {
    // one case per entry, so that each is proved on its own
    match name
    case Linear =>
    case EaseInSine =>
    case EaseOutSine =>
    case EaseInOutSine =>
    case EaseInQuad =>
    case EaseOutQuad =>
    case EaseInOutQuad =>
    case EaseInCubic =>
    case EaseOutCubic =>
    case EaseInOutCubic =>
    case EaseInQuart =>
    case EaseOutQuart =>
    case EaseInOutQuart =>
    case EaseInQuint =>
    case EaseOutQuint =>
    case EaseInOutQuint =>
    case EaseInExpo =>
    case EaseOutExpo =>
    case EaseInOutExpo =>
    case EaseInCirc =>
    case EaseOutCirc =>
    case EaseInOutCirc =>
    case EaseInBack =>
    case EaseOutBack =>
    case EaseInOutBack =>
    case EaseInElastic =>
    case EaseOutElastic =>
    case EaseInOutElastic =>
    case EaseInBounce =>
    case EaseOutBounce =>
    case EaseInOutBounce =>
  }

  /** The corrected table differs from the source's at one point only, the
      value of easeInOutExpo at 1, and there it gives 1: every non-Sine curve
      of the corrected table maps 0 to 0 and 1 to 1. */
  lemma CorrectedTableEndpoints(m: Easings.Math, name: EasingName, v: real)
    requires ExactAtZeroAndOne(m)
    ensures v != 1.0 || name != EaseInOutExpo ==> EaseCorrected(m, name, v) == Ease(m, name, v)
    ensures EaseCorrected(m, name, 0.0) == 0.0
    ensures EaseCorrected(m, name, 1.0) == 1.0 || name.EaseInSine? || name.EaseOutSine? || name.EaseInOutSine?
  {
    RegisteredEndpoints(m, name);
  }

  /** `typeof easing === "string" ? easingFunctions[easing] : easing`: the
      curve the frame callback calls. A caller passing a key gets a curve
      that starts at 0 and, unless it is a Sine curve or easeInOutExpo, ends
      at 1. */
  function Resolve(m: Easings.Math, choice: EasingChoice): (f: real -> real)
    ensures choice.Custom? ==> f == choice.curve
    ensures choice.Named? ==> forall v :: f(v) == Ease(m, choice.name, v)
    ensures choice.Named? && ExactAtZeroAndOne(m) ==> f(0.0) == 0.0
    ensures choice.Named? && EndsAtOne(choice.name) && ExactAtZeroAndOne(m) ==> f(1.0) == 1.0
  {
    match choice
    case Named(name) => v => Ease(m, name, v)
    case Custom(curve) => curve
  }

  /** easeInCirc is easeOutCirc mirrored, for every v and whatever `sqrt` is. */
  lemma CircMirror(m: Easings.Math, v: real)
    ensures Ease(m, EaseInCirc, v) == 1.0 - Ease(m, EaseOutCirc, 1.0 - v)
  {
    assert 1.0 - (1.0 - v - 1.0) * (1.0 - v - 1.0) == 1.0 - v * v;
  }
}
