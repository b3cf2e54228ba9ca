/**
 * The record the tracking model keeps per identity (`TrackableObject`) and the
 * derived average tracked time shown on screen.
 *
 * Dates are seconds on the wall clock, as `real`; `Float` rounding is not modelled.
 */
module Trackables {

  /** A rectangle (`CGRect`): origin and size. */
  datatype Rect = Rect(x: real, y: real, width: real, height: real)

  /** `CGRect.zero`, stored for an identity that is not visible in the current frame. */
  const ZeroRect: Rect := Rect(0.0, 0.0, 0.0, 0.0)

  /** One tracked identity: the tracker's id, its rect in image coordinates, and when it was first and last seen. */
  datatype TrackableObject = TrackableObject(id: int, rect: Rect, firstDetect: real, lastDetect: real)

  /** `totalDetectionTime`: how long the identity has been followed. */
  function TotalDetectionTime(t: TrackableObject): real
  {
    t.lastDetect - t.firstDetect
  }

  predicate Chronological(t: TrackableObject)
  {
    t.firstDetect <= t.lastDetect
  }

  /** No two entries carry the same id. */
  predicate UniqueIds(s: seq<TrackableObject>)
  {
    forall i, j :: 0 <= i < j < |s| ==> s[i].id != s[j].id
  }

  function Ids(s: seq<TrackableObject>): set<int>
  {
    set i | 0 <= i < |s| :: s[i].id
  }

  /** `map({$0.totalDetectionTime}).reduce(0, +)`: a left fold, so the last entry is added last. */
  function SumDetectionTimes(s: seq<TrackableObject>): real
    decreases |s|
  {
    if s == [] then 0.0 else SumDetectionTimes(s[..|s| - 1]) + TotalDetectionTime(s[|s| - 1])
  }

  /** `averageTrackedTime`: 0 when no identity exists yet, otherwise the mean over active and evicted entries. */
  function AverageTrackedTime(tracked: seq<TrackableObject>, deregistered: seq<TrackableObject>): real
  {
    if tracked == [] && deregistered == [] then 0.0
    else (SumDetectionTimes(tracked) + SumDetectionTimes(deregistered)) / ((|tracked| + |deregistered|) as real)
  }

  /** The sum of the two lists is the sum over their concatenation. */
  lemma {:induction false} SumDetectionTimesConcat(a: seq<TrackableObject>, b: seq<TrackableObject>)
    ensures SumDetectionTimes(a + b) == SumDetectionTimes(a) + SumDetectionTimes(b)
    decreases |b|
  {
    if b == [] {
      assert a + b == a;
    } else {
      var b' := b[..|b| - 1];
      assert (a + b)[..|a + b| - 1] == a + b';
      assert (a + b)[|a + b| - 1] == b[|b| - 1];
      SumDetectionTimesConcat(a, b');
    }
  }

  /** Every entry contributes between `lo` and `hi`, so the sum lies between |s|*lo and |s|*hi. */
  lemma {:induction false} SumDetectionTimesBounds(s: seq<TrackableObject>, lo: real, hi: real)
    requires forall t :: t in s ==> lo <= TotalDetectionTime(t) <= hi
    ensures (|s| as real) * lo <= SumDetectionTimes(s) <= (|s| as real) * hi
    decreases |s|
  {
    if s != [] {
      var s' := s[..|s| - 1];
      assert forall t :: t in s' ==> t in s;
      assert s[|s| - 1] in s;
      SumDetectionTimesBounds(s', lo, hi);
      assert (|s| as real) * lo == (|s'| as real) * lo + lo;
      assert (|s| as real) * hi == (|s'| as real) * hi + hi;
    }
  }

  /** Each chronological entry adds a non-negative duration. */
  lemma {:induction false} SumDetectionTimesNonNegative(s: seq<TrackableObject>)
    requires forall t :: t in s ==> Chronological(t)
    ensures SumDetectionTimes(s) >= 0.0
    decreases |s|
  {
    if s != [] {
      var s' := s[..|s| - 1];
      assert forall t :: t in s' ==> t in s;
      assert s[|s| - 1] in s;
      SumDetectionTimesNonNegative(s');
    }
  }

  /** With at least one entry, the average is the mean duration over all entries ever created. */
  lemma AverageIsMean(tracked: seq<TrackableObject>, deregistered: seq<TrackableObject>)
    requires tracked != [] || deregistered != []
    ensures AverageTrackedTime(tracked, deregistered)
            == SumDetectionTimes(tracked + deregistered) / (|tracked + deregistered| as real)
  {
    SumDetectionTimesConcat(tracked, deregistered);
  }

  /** The average lies between the shortest and the longest tracked duration. */
  lemma AverageWithinBounds(tracked: seq<TrackableObject>, deregistered: seq<TrackableObject>, lo: real, hi: real)
    requires tracked != [] || deregistered != []
    requires forall t :: t in tracked + deregistered ==> lo <= TotalDetectionTime(t) <= hi
    ensures lo <= AverageTrackedTime(tracked, deregistered) <= hi
  {
    var all := tracked + deregistered;
    AverageIsMean(tracked, deregistered);
    SumDetectionTimesBounds(all, lo, hi);
    QuotientBounds(SumDetectionTimes(all), |all| as real, lo, hi);
  }

  /** A quotient by a positive count inherits the bounds of the per-entry values. */
  lemma QuotientBounds(sum: real, n: real, lo: real, hi: real)
    requires n > 0.0
    requires n * lo <= sum <= n * hi
    ensures lo <= sum / n <= hi
  {
  }

  /**
   * Before any identity exists the average is 0; when every entry was last seen no earlier
   * than first seen, the average is never negative.
   */
  lemma AverageNonNegative(tracked: seq<TrackableObject>, deregistered: seq<TrackableObject>)
    requires forall t :: t in tracked ==> Chronological(t)
    requires forall t :: t in deregistered ==> Chronological(t)
    ensures tracked == [] && deregistered == [] ==> AverageTrackedTime(tracked, deregistered) == 0.0
    ensures AverageTrackedTime(tracked, deregistered) >= 0.0
  {
    if tracked != [] || deregistered != [] {
      SumDetectionTimesNonNegative(tracked);
      SumDetectionTimesNonNegative(deregistered);
    }
  }
}
