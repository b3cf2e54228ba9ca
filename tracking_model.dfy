/**
 * The tracking model object: the list of identities being tracked, the append-only history
 * of evicted identities, and the admission gate, updated in place by the camera-frame
 * handler, the timer, the start/stop switch and the detection-result handler.
 *
 * The camera, the detector and the tracker's assignment algorithm are outside this model:
 * a submitted frame is reported by a boolean result, and the tracker is a function from
 * the boxes it is given to its outputs.
 */
module Tracking {
  import opened Trackables
  import opened Reconciliation
  import opened Admission
  import opened SettingRules

  /** The two runtime settings of the tracker (`CentroidTracker`). */
  class TrackerSettings {
    var maxDisappearedFrameCount: int
    var maxNormalizedDistance: real

    constructor (maxDisappearedFrameCount: int, maxNormalizedDistance: real)
      ensures this.maxDisappearedFrameCount == maxDisappearedFrameCount
      ensures this.maxNormalizedDistance == maxNormalizedDistance
    {
      this.maxDisappearedFrameCount := maxDisappearedFrameCount;
      this.maxNormalizedDistance := maxNormalizedDistance;
    }
  }

  class TrackingModel {
    const tracker: TrackerSettings
    var trackedObjects: seq<TrackableObject>
    var deregisteredObjects: seq<TrackableObject>
    var isTracking: bool
    var framePerSecond: real
    var canProcess: bool

    /** Ids in `trackedObjects` are unique, and the tracker holds valid settings. */
    ghost predicate Valid()
      reads this, tracker
    {
      UniqueIds(trackedObjects) &&
      ValidConfig(tracker.maxDisappearedFrameCount, tracker.maxNormalizedDistance)
    }

    function GateState(): Gate
      reads this
    {
      Gate(isTracking, framePerSecond, canProcess)
    }

    /** `averageTrackedTime`. */
    function AverageTrackedTime(): real
      reads this
    {
      Trackables.AverageTrackedTime(trackedObjects, deregisteredObjects)
    }

    constructor ()
      ensures Valid() && fresh(tracker)
      ensures trackedObjects == [] && deregisteredObjects == []
      ensures GateState() == Gate(false, 0.0, false)
      ensures tracker.maxDisappearedFrameCount == InitialMaxDisappearedFrameCount
      ensures tracker.maxNormalizedDistance == InitialMaxNormalizedDistance
    {
      tracker := new TrackerSettings(InitialMaxDisappearedFrameCount, InitialMaxNormalizedDistance);
      trackedObjects := [];
      deregisteredObjects := [];
      isTracking := false;
      framePerSecond := 0.0;
      canProcess := false;
    }

    /**
     * Assigning `isTracking`: a start empties `trackedObjects` and, with a positive rate,
     * raises the permit; the eviction history is never touched.
     */
    method SetIsTracking(newValue: bool)
      requires Valid()
      modifies this`isTracking, this`canProcess, this`trackedObjects
      ensures Valid()
      ensures GateState() == OnSetTracking(old(GateState()), newValue)
      ensures trackedObjects == if newValue then [] else old(trackedObjects)
      ensures deregisteredObjects == old(deregisteredObjects)
    {
      if newValue {
        trackedObjects := [];
      }
      isTracking := newValue;
      if isTracking {
        if framePerSecond > 0.0 {
          canProcess := true;
        }
      }
    }

    /** Assigning `framePerSecond`: the assigned value is stored as it is. */
    method SetFramePerSecond(newValue: real)
      requires Valid()
      modifies this`framePerSecond
      ensures Valid()
      ensures GateState() == OnSetFramePerSecond(old(GateState()), newValue)
    {
      framePerSecond := newValue;
    }

    /** `timerFired`: raise the permit. */
    method TimerFired()
      requires Valid()
      modifies this`canProcess
      ensures Valid()
      ensures GateState() == OnTimerFired(old(GateState()))
    {
      canProcess := true;
    }

    /** A camera frame arrives: returns whether it is handed to the detector. */
    method HandleCameraPreview() returns (submitted: bool)
      requires Valid()
      modifies this`canProcess
      ensures Valid()
      ensures (GateState(), submitted) == OnFrame(old(GateState()))
    {
      submitted := false;
      if isTracking && ((framePerSecond > 0.0 && canProcess) || framePerSecond <= 0.0) {
        canProcess := false;
        submitted := true;
      }
    }

    /** A batch of detector observations arrives: it is applied only while tracking. */
    method HandleVisionObservations(observations: seq<HumanObservation>, update: seq<Rect> -> TrackerOutput,
                                    convert: Rect -> Rect, now: real)
      requires Valid()
      requires isTracking ==> update(TrackerInput(observations)).WellFormed()
      modifies this`trackedObjects, this`deregisteredObjects
      ensures Valid()
      ensures !isTracking ==> trackedObjects == old(trackedObjects) && deregisteredObjects == old(deregisteredObjects)
      ensures isTracking ==>
                trackedObjects == Reconcile(old(trackedObjects), update(TrackerInput(observations)), convert, now) &&
                deregisteredObjects == old(deregisteredObjects) +
                                       Evicted(old(trackedObjects), update(TrackerInput(observations)).deregistered)
    {
      if isTracking {
        ProcessObservations(observations, update, convert, now);
      }
    }

    /**
     * `processObservations`: hand the confident boxes to the tracker, move the entries it
     * evicted to the history, and visit every tracker key in turn (`convert` is
     * `toImageCoordinates` for the current frame size, `now` the clock).
     */
    method ProcessObservations(observations: seq<HumanObservation>, update: seq<Rect> -> TrackerOutput,
                               convert: Rect -> Rect, now: real)
      requires Valid()
      requires update(TrackerInput(observations)).WellFormed()
      modifies this`trackedObjects, this`deregisteredObjects
      ensures Valid()
      ensures deregisteredObjects == old(deregisteredObjects) +
                                     Evicted(old(trackedObjects), update(TrackerInput(observations)).deregistered)
      ensures trackedObjects == Reconcile(old(trackedObjects), update(TrackerInput(observations)), convert, now)
    {
      var boundingBoxes := TrackerInput(observations);
      var out := update(boundingBoxes);
      var currentTrackedObject := trackedObjects;

      deregisteredObjects := deregisteredObjects + Evicted(currentTrackedObject, out.deregistered);
      trackedObjects := Remaining(trackedObjects, out.deregistered);

      var i := 0;
      while i < |out.order|
        invariant 0 <= i <= |out.order|
        invariant deregisteredObjects == old(deregisteredObjects) + Evicted(currentTrackedObject, out.deregistered)
        invariant trackedObjects == VisitAll(Remaining(currentTrackedObject, out.deregistered), out.order[..i], out, convert, now)
      {
        var key := out.order[i];
        var firstTrackedIndex := FirstIndex(trackedObjects, key);
        if key !in out.inFrame {
          // temporarily out of frame
          if firstTrackedIndex.Some? {
            var j := firstTrackedIndex.value;
            trackedObjects := trackedObjects[j := trackedObjects[j].(rect := ZeroRect, lastDetect := now)];
          }
        } else {
          var convertedRect := convert(out.objects[key]);
          if firstTrackedIndex.Some? {
            var j := firstTrackedIndex.value;
            trackedObjects := trackedObjects[j := trackedObjects[j].(rect := convertedRect, lastDetect := now)];
          } else {
            trackedObjects := trackedObjects + [TrackableObject(key, convertedRect, now, now)];
          }
        }
        assert out.order[..i + 1] == out.order[..i] + [key];
        i := i + 1;
      }
      assert out.order[..i] == out.order;
      ReconcileUnique(currentTrackedObject, out, convert, now);
    }
  }
}
