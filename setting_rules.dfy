/**
 * The validation rules of the settings panel: the max-disappeared frame count must be
 * positive (a non-positive entry is rejected and the previous value kept), the max
 * normalized distance is clamped to [0, sqrt 2], and the frames-per-second slider offers
 * values from 0 to the maximum in steps of 0.5.
 */
module SettingRules {
  import opened Admission

  /** `sqrt(2)`, the largest distance between two points of the unit square; here the double nearest to it. */
  const Sqrt2: real := 1.4142135623730951

  /** The tracker's settings when the model is created. */
  const InitialMaxDisappearedFrameCount: int := 10
  const InitialMaxNormalizedDistance: real := 0.2

  /** The slider's step. */
  const SliderStep: real := 0.5

  /** A setting pair the tracker may hold. */
  predicate ValidConfig(maxDisappearedFrameCount: int, maxNormalizedDistance: real)
  {
    maxDisappearedFrameCount > 0 && 0.0 <= maxNormalizedDistance <= Sqrt2
  }

  /**
   * The tracker's frame count after the field is edited to `requested` while it holds `current`:
   * a positive entry is stored as it is, any other is rejected. `FrameCountEditsKeepPositive`
   * with the single edit `[requested]` states which of the two cases applies.
   */
  function AcceptFrameCount(requested: int, current: int): (r: int)
    ensures r == requested || r == current
    ensures current > 0 ==> r > 0
  {
    if requested <= 0 then current else requested
  }

  /** The tracker's frame count after a series of edits, applied first to last. */
  function ApplyFrameCountEdits(current: int, edits: seq<int>): int
    decreases |edits|
  {
    if edits == [] then current else ApplyFrameCountEdits(AcceptFrameCount(edits[0], current), edits[1..])
  }

  /** The last positive entry of `edits`, or `initial` if there is none. */
  function LastPositive(initial: int, edits: seq<int>): int
    decreases |edits|
  {
    if edits == [] then initial
    else if edits[|edits| - 1] > 0 then edits[|edits| - 1]
    else LastPositive(initial, edits[..|edits| - 1])
  }

  lemma {:induction false} ApplyFrameCountEditsSnoc(current: int, edits: seq<int>, e: int)
    ensures ApplyFrameCountEdits(current, edits + [e]) == AcceptFrameCount(e, ApplyFrameCountEdits(current, edits))
    decreases |edits|
  {
    if edits == [] {
      assert [] + [e] == [e];
    } else {
      assert (edits + [e])[1..] == edits[1..] + [e];
      ApplyFrameCountEditsSnoc(AcceptFrameCount(edits[0], current), edits[1..], e);
    }
  }

  /**
   * Starting from a positive count (the initial 10), the tracker's count stays positive
   * through any series of edits, and is the last positive entry made, or the start value.
   */
  lemma {:induction false} FrameCountEditsKeepPositive(initial: int, edits: seq<int>)
    requires initial > 0
    ensures ApplyFrameCountEdits(initial, edits) == LastPositive(initial, edits)
    ensures ApplyFrameCountEdits(initial, edits) > 0
    decreases |edits|
  {
    if edits != [] {
      var prefix, e := edits[..|edits| - 1], edits[|edits| - 1];
      assert edits == prefix + [e];
      FrameCountEditsKeepPositive(initial, prefix);
      ApplyFrameCountEditsSnoc(initial, prefix, e);
    }
  }

  /** The distance the field and the tracker end with after the field is edited to `d`. */
  function ClampDistance(d: real): (r: real)
    ensures 0.0 <= r <= Sqrt2
    ensures 0.0 < d <= Sqrt2 ==> r == d
  {
    if d > Sqrt2 then Sqrt2 else if d <= 0.0 then 0.0 else d
  }

  function Distance(a: real, b: real): real
  {
    if a <= b then b - a else a - b
  }

  /** The clamped distance is the allowed value nearest to the entry. */
  lemma ClampDistanceNearest(d: real, x: real)
    requires 0.0 <= x <= Sqrt2
    ensures Distance(ClampDistance(d), d) <= Distance(x, d)
  {
  }

  /** Clamping an already clamped value changes nothing, so the handler re-running on its own store is a no-op. */
  lemma ClampDistanceIdempotent(d: real)
    ensures ClampDistance(ClampDistance(d)) == ClampDistance(d)
  {
  }

  /** A larger entry never yields a smaller threshold. */
  lemma ClampDistanceMonotone(a: real, b: real)
    requires a <= b
    ensures ClampDistance(a) <= ClampDistance(b)
  {
  }

  /** The value of the frames-per-second slider at step `position`. */
  function SliderValue(position: nat): real
  {
    position as real * SliderStep
  }

  /** Every slider value lies in [0, maximum], so the model's discarded clamp would leave it as it is. */
  lemma SliderValueNeedsNoClamp(position: nat)
    requires SliderValue(position) <= MaxFramePerSecond
    ensures 0.0 <= SliderValue(position) <= MaxFramePerSecond
    ensures ClampFramePerSecond(SliderValue(position)) == SliderValue(position)
  {
  }
}
