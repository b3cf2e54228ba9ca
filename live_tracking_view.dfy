/**
 * The settings panel of the live tracking screen: its three fields, and the handlers that
 * validate an edit and pass it on to the tracking model and its tracker.
 * Rendering and layout are not part of this model.
 */
module LiveTrackingView {
  import opened Admission
  import opened SettingRules
  import opened Tracking

  class SettingView {
    const model: TrackingModel
    var framePerSecond: real
    var frameCount: int
    var distance: real

    /** The panel appears: every field starts from the value the model or tracker holds. */
    constructor (model: TrackingModel)
      ensures this.model == model
      ensures framePerSecond == model.framePerSecond
      ensures frameCount == model.tracker.maxDisappearedFrameCount
      ensures distance == model.tracker.maxNormalizedDistance
    {
      this.model := model;
      framePerSecond := model.framePerSecond;
      frameCount := model.tracker.maxDisappearedFrameCount;
      distance := model.tracker.maxNormalizedDistance;
    }

    /** The slider is dragged to step `position`: only the panel's field changes. */
    method SlideTo(position: nat)
      requires SliderValue(position) <= MaxFramePerSecond
      modifies this`framePerSecond
      ensures framePerSecond == SliderValue(position)
      ensures 0.0 <= framePerSecond <= MaxFramePerSecond
    {
      framePerSecond := SliderValue(position);
    }

    /** The slider reports a change of its editing state: the value reaches the model only when editing ends. */
    method EditingChanged(changing: bool)
      requires model.Valid()
      modifies model`framePerSecond
      ensures model.Valid()
      ensures model.framePerSecond == if changing then old(model.framePerSecond) else framePerSecond
    {
      if changing {
        return;
      }
      model.SetFramePerSecond(framePerSecond);
    }

    /**
     * The frame-count field changed: a non-positive entry is rejected and the field shows the
     * tracker's value again; a positive entry is stored into the tracker as it is.
     */
    method FrameCountChanged()
      requires model.Valid()
      modifies this`frameCount, model.tracker`maxDisappearedFrameCount
      ensures model.Valid()
      ensures model.tracker.maxDisappearedFrameCount
              == AcceptFrameCount(old(frameCount), old(model.tracker.maxDisappearedFrameCount))
      ensures frameCount == model.tracker.maxDisappearedFrameCount
    {
      if frameCount <= 0 {
        frameCount := model.tracker.maxDisappearedFrameCount;
      } else {
        model.tracker.maxDisappearedFrameCount := frameCount;
      }
    }

    /** The distance field changed: the field and the tracker both end with the entry clamped to [0, sqrt 2]. */
    method DistanceChanged()
      requires model.Valid()
      modifies this`distance, model.tracker`maxNormalizedDistance
      ensures model.Valid()
      ensures model.tracker.maxNormalizedDistance == ClampDistance(old(distance))
      ensures distance == model.tracker.maxNormalizedDistance
    {
      if distance > Sqrt2 {
        distance := Sqrt2;
        model.tracker.maxNormalizedDistance := Sqrt2;
      } else if distance <= 0.0 {
        distance := 0.0;
        model.tracker.maxNormalizedDistance := 0.0;
      } else {
        model.tracker.maxNormalizedDistance := distance;
      }
    }
  }
}
