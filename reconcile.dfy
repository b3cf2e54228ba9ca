/**
 * What one batch of detector observations does to the tracking model's two lists
 * (`processObservations`): the confidence filter in front of the tracker, and the
 * reconciliation of `trackedObjects` / `deregisteredObjects` with the tracker's outputs.
 *
 * The tracker itself (`CentroidTracker`) is not part of this model: its outputs are
 * arbitrary inputs here, described by `TrackerOutput`.
 */
module Reconciliation {
  import opened Wrappers
  import opened Trackables

  /** `thresholdConfidence`. */
  const ThresholdConfidence: real := 0.0

  /** One detection: a normalized bounding box and the detector's confidence. */
  datatype HumanObservation = HumanObservation(boundingBox: Rect, confidence: real)

  /**
   * The boxes handed to `tracker.update(rects:)`: the observations whose confidence is
   * strictly above the threshold, in their original order, mapped to their bounding boxes.
   */
  function TrackerInput(observations: seq<HumanObservation>): (boxes: seq<Rect>)
    ensures |boxes| <= |observations|
    ensures forall b :: b in boxes <==>
              exists o :: o in observations && o.confidence > ThresholdConfidence && o.boundingBox == b
    decreases |observations|
  {
    if observations == [] then []
    else
      var head := if observations[0].confidence > ThresholdConfidence then [observations[0].boundingBox] else [];
      var tail := TrackerInput(observations[1..]);
      assert forall o :: o in observations <==> o == observations[0] || o in observations[1..];
      head + tail
  }

  /** The filter keeps order: it distributes over concatenation of observation batches. */
  lemma {:induction false} TrackerInputConcat(a: seq<HumanObservation>, b: seq<HumanObservation>)
    ensures TrackerInput(a + b) == TrackerInput(a) + TrackerInput(b)
    decreases |a|
  {
    if a == [] {
      assert a + b == b;
    } else {
      assert (a + b)[0] == a[0];
      assert (a + b)[1..] == a[1..] + b;
      TrackerInputConcat(a[1..], b);
    }
  }

  /** When every observation is confident, every box reaches the tracker, at its own position. */
  lemma {:induction false} TrackerInputKeepsConfident(observations: seq<HumanObservation>)
    requires forall o :: o in observations ==> o.confidence > ThresholdConfidence
    ensures |TrackerInput(observations)| == |observations|
    ensures forall i :: 0 <= i < |observations| ==> TrackerInput(observations)[i] == observations[i].boundingBox
    decreases |observations|
  {
    if observations != [] {
      assert forall o :: o in observations[1..] ==> o in observations;
      TrackerInputKeepsConfident(observations[1..]);
    }
  }

  /**
   * What the tracker exposes after `update`: every live id with its normalized rect
   * (`objects`), the ids matched in this frame (`inFrame`, the keys of `objectsInFrame`),
   * and the ids evicted by this call (`deregistered`). `order` is the order in which
   * iterating the `objects` dictionary visits its keys, which Swift leaves unspecified.
   */
  datatype TrackerOutput = TrackerOutput(objects: map<int, Rect>, order: seq<int>, inFrame: set<int>, deregistered: set<int>)
  {
    /** `order` visits every key of `objects` exactly once. */
    predicate WellFormed()
    {
      (forall i, j :: 0 <= i < j < |order| ==> order[i] != order[j]) &&
      (forall k :: k in order ==> k in objects) &&
      (forall k :: k in objects ==> k in order)
    }
  }

  /** The entries whose id is (`member`) or is not (`!member`) in `ids`, in their original order. */
  function Select(s: seq<TrackableObject>, ids: set<int>, member: bool): (r: seq<TrackableObject>)
    ensures |r| <= |s|
    ensures forall t :: t in r <==> t in s && (t.id in ids) == member
    decreases |s|
  {
    if s == [] then []
    else
      var rest := Select(s[1..], ids, member);
      assert forall t :: t in s <==> t == s[0] || t in s[1..];
      (if (s[0].id in ids) == member then [s[0]] else []) + rest
  }

  /** `removeAll(where: {deregisteredObjectsId.contains($0.id)})`. */
  function Remaining(s: seq<TrackableObject>, ids: set<int>): seq<TrackableObject>
  {
    Select(s, ids, false)
  }

  /** `filter({deregisteredObjectsId.contains($0.id)})`. */
  function Evicted(s: seq<TrackableObject>, ids: set<int>): seq<TrackableObject>
  {
    Select(s, ids, true)
  }

  /** Selection keeps order: it distributes over concatenation. */
  lemma {:induction false} SelectConcat(a: seq<TrackableObject>, b: seq<TrackableObject>, ids: set<int>, member: bool)
    ensures Select(a + b, ids, member) == Select(a, ids, member) + Select(b, ids, member)
    decreases |a|
  {
    if a == [] {
      assert a + b == b;
    } else {
      assert (a + b)[0] == a[0];
      assert (a + b)[1..] == a[1..] + b;
      SelectConcat(a[1..], b, ids, member);
    }
  }

  /** Nothing is lost: every pre-call entry is either kept or moved to the eviction history, exactly once. */
  lemma {:induction false} EvictionConserves(s: seq<TrackableObject>, ids: set<int>)
    ensures multiset(Remaining(s, ids)) + multiset(Evicted(s, ids)) == multiset(s)
    decreases |s|
  {
    if s != [] {
      EvictionConserves(s[1..], ids);
      assert s == [s[0]] + s[1..];
    }
  }

  /** Selecting entries never creates a duplicate id. */
  lemma {:induction false} SelectUnique(s: seq<TrackableObject>, ids: set<int>, member: bool)
    requires UniqueIds(s)
    ensures UniqueIds(Select(s, ids, member))
    decreases |s|
  {
    if s != [] {
      SelectUnique(s[1..], ids, member);
      var rest := Select(s[1..], ids, member);
      forall t | t in rest
        ensures t.id != s[0].id
      {
        var i :| 0 <= i < |s[1..]| && s[1..][i] == t;
        assert s[i + 1] == t;
      }
    }
  }

  /** `firstIndex(where: {$0.id == id})`. */
  function FirstIndex(s: seq<TrackableObject>, id: int): (r: Option<nat>)
    ensures r.Some? ==> r.value < |s| && s[r.value].id == id && forall j :: 0 <= j < r.value ==> s[j].id != id
    ensures r.None? ==> forall j :: 0 <= j < |s| ==> s[j].id != id
    decreases |s|
  {
    if s == [] then None
    else if s[0].id == id then Some(0)
    else match FirstIndex(s[1..], id)
      case None => None
      case Some(i) => Some(i + 1)
  }

  /** What a tracker key does to the entry that already carries its id. */
  function Refreshed(t: TrackableObject, out: TrackerOutput, convert: Rect -> Rect, now: real): TrackableObject
    requires t.id in out.objects
  {
    if t.id in out.inFrame then t.(rect := convert(out.objects[t.id]), lastDetect := now)
    else t.(rect := ZeroRect, lastDetect := now)
  }

  /** The entry appended for a visible key that no entry carries yet: first and last seen now. */
  function Arrival(k: int, out: TrackerOutput, convert: Rect -> Rect, now: real): TrackableObject
    requires k in out.objects
  {
    TrackableObject(k, convert(out.objects[k]), now, now)
  }

  /** One iteration of the loop over `tracker.objects`, for key `k`. */
  function Visit(ts: seq<TrackableObject>, k: int, out: TrackerOutput, convert: Rect -> Rect, now: real): seq<TrackableObject>
    requires k in out.objects
  {
    match FirstIndex(ts, k)
    case Some(i) => ts[i := Refreshed(ts[i], out, convert, now)]
    case None => if k in out.inFrame then ts + [Arrival(k, out, convert, now)] else ts
  }

  /** The loop over `tracker.objects`, run over the keys `keys` in order. */
  function VisitAll(ts: seq<TrackableObject>, keys: seq<int>, out: TrackerOutput, convert: Rect -> Rect, now: real): seq<TrackableObject>
    requires forall k :: k in keys ==> k in out.objects
    decreases |keys|
  {
    if keys == [] then ts
    else Visit(VisitAll(ts, keys[..|keys| - 1], out, convert, now), keys[|keys| - 1], out, convert, now)
  }

  /** The new `trackedObjects`: evicted entries removed, then every tracker key visited. */
  function Reconcile(ts: seq<TrackableObject>, out: TrackerOutput, convert: Rect -> Rect, now: real): seq<TrackableObject>
    requires out.WellFormed()
  {
    VisitAll(Remaining(ts, out.deregistered), out.order, out, convert, now)
  }

  // ---------------------------------------------------------------------------
  // An independent description of the result: the surviving entries, in place,
  // refreshed when the tracker knows their id, followed by the new arrivals.

  /** The surviving entries, each refreshed if its id is among `keys`. */
  function Updated(r: seq<TrackableObject>, keys: seq<int>, out: TrackerOutput, convert: Rect -> Rect, now: real): seq<TrackableObject>
    requires forall k :: k in keys ==> k in out.objects
  {
    seq(|r|, j requires 0 <= j < |r| => if r[j].id in keys then Refreshed(r[j], out, convert, now) else r[j])
  }

  /** The new entries, one per visible key of `keys` that no entry of `r` carries, in the order of `keys`. */
  function Arrivals(r: seq<TrackableObject>, keys: seq<int>, out: TrackerOutput, convert: Rect -> Rect, now: real): (a: seq<TrackableObject>)
    requires forall k :: k in keys ==> k in out.objects
    ensures forall j :: 0 <= j < |a| ==>
              a[j].id in keys && a[j].id in out.inFrame && a[j].id !in Ids(r) && a[j] == Arrival(a[j].id, out, convert, now)
    ensures forall k :: k in keys && k in out.inFrame && k !in Ids(r) ==> k in Ids(a)
    decreases |keys|
  {
    if keys == [] then []
    else
      var k := keys[|keys| - 1];
      var prefix := Arrivals(r, keys[..|keys| - 1], out, convert, now);
      assert forall k' :: k' in keys <==> k' in keys[..|keys| - 1] || k' == k;
      var a := prefix + (if k in out.inFrame && k !in Ids(r) then [Arrival(k, out, convert, now)] else []);
      assert Ids(prefix) <= Ids(a) by {
        forall k' | k' in Ids(prefix)
          ensures k' in Ids(a)
        {
          var i :| 0 <= i < |prefix| && prefix[i].id == k';
          assert a[i] == prefix[i];
        }
      }
      assert k in out.inFrame && k !in Ids(r) ==> a[|prefix|].id == k;
      a
  }

  /** When `keys` has no repetition, neither do the arrivals' ids. */
  lemma {:induction false} ArrivalsUnique(r: seq<TrackableObject>, keys: seq<int>, out: TrackerOutput, convert: Rect -> Rect, now: real)
    requires forall i, j :: 0 <= i < j < |keys| ==> keys[i] != keys[j]
    requires forall k :: k in keys ==> k in out.objects
    ensures UniqueIds(Arrivals(r, keys, out, convert, now))
    decreases |keys|
  {
    if keys != [] {
      var prefix := keys[..|keys| - 1];
      ArrivalsUnique(r, prefix, out, convert, now);
      var a := Arrivals(r, prefix, out, convert, now);
      forall j | 0 <= j < |a|
        ensures a[j].id != keys[|keys| - 1]
      {
        var i :| 0 <= i < |prefix| && prefix[i] == a[j].id;
      }
    }
  }

  /** Adding one key to the visited keys refreshes exactly the entries carrying that key. */
  lemma UpdatedSnoc(r: seq<TrackableObject>, ks: seq<int>, k: int, out: TrackerOutput, convert: Rect -> Rect, now: real)
    requires forall k' :: k' in ks ==> k' in out.objects
    requires k in out.objects
    ensures forall i :: 0 <= i < |r| ==>
              Updated(r, ks + [k], out, convert, now)[i] ==
              if r[i].id == k then Refreshed(r[i], out, convert, now) else Updated(r, ks, out, convert, now)[i]
  {
  }

  /** Visiting a key that a surviving entry carries refreshes that entry in place. */
  lemma VisitKnown(r: seq<TrackableObject>, ks: seq<int>, k: int, out: TrackerOutput, convert: Rect -> Rect, now: real)
    requires UniqueIds(r)
    requires forall k' :: k' in ks ==> k' in out.objects
    requires k in out.objects && k !in ks && k in Ids(r)
    ensures Visit(Updated(r, ks, out, convert, now) + Arrivals(r, ks, out, convert, now), k, out, convert, now)
            == Updated(r, ks + [k], out, convert, now) + Arrivals(r, ks, out, convert, now)
  {
    var u, a := Updated(r, ks, out, convert, now), Arrivals(r, ks, out, convert, now);
    var e := u + a;
    var j :| 0 <= j < |r| && r[j].id == k;
    assert e[j] == r[j];
    assert forall i :: 0 <= i < j ==> e[i].id == r[i].id != k;
    assert FirstIndex(e, k) == Some(j);
    UpdatedSnoc(r, ks, k, out, convert, now);
    assert Updated(r, ks + [k], out, convert, now) == u[j := Refreshed(r[j], out, convert, now)];
    assert e[j := Refreshed(e[j], out, convert, now)] == u[j := Refreshed(r[j], out, convert, now)] + a;
  }

  /** Visiting a key that no surviving entry carries appends it if it is visible, and does nothing otherwise. */
  lemma VisitUnknown(r: seq<TrackableObject>, ks: seq<int>, k: int, out: TrackerOutput, convert: Rect -> Rect, now: real)
    requires forall k' :: k' in ks ==> k' in out.objects
    requires k in out.objects && k !in ks && k !in Ids(r)
    ensures Visit(Updated(r, ks, out, convert, now) + Arrivals(r, ks, out, convert, now), k, out, convert, now)
            == Updated(r, ks + [k], out, convert, now) + Arrivals(r, ks + [k], out, convert, now)
  {
  }

  /** The loop computes exactly the independent description, provided ids and keys are unique. */
  lemma {:induction false} VisitAllShape(r: seq<TrackableObject>, keys: seq<int>, out: TrackerOutput, convert: Rect -> Rect, now: real)
    requires UniqueIds(r)
    requires forall i, j :: 0 <= i < j < |keys| ==> keys[i] != keys[j]
    requires forall k :: k in keys ==> k in out.objects
    ensures VisitAll(r, keys, out, convert, now) == Updated(r, keys, out, convert, now) + Arrivals(r, keys, out, convert, now)
    decreases |keys|
  {
    if keys == [] {
      assert Updated(r, keys, out, convert, now) == r;
    } else {
      var ks, k := keys[..|keys| - 1], keys[|keys| - 1];
      assert keys == ks + [k];
      assert k !in ks;
      VisitAllShape(r, ks, out, convert, now);
      if k in Ids(r) {
        VisitKnown(r, ks, k, out, convert, now);
      } else {
        VisitUnknown(r, ks, k, out, convert, now);
      }
    }
  }

  /** `Reconcile` is the surviving entries, refreshed in place, followed by the arrivals. */
  lemma ReconcileShape(ts: seq<TrackableObject>, out: TrackerOutput, convert: Rect -> Rect, now: real)
    requires out.WellFormed()
    requires UniqueIds(ts)
    ensures var r := Remaining(ts, out.deregistered);
            Reconcile(ts, out, convert, now) == Updated(r, out.order, out, convert, now) + Arrivals(r, out.order, out, convert, now)
  {
    SelectUnique(ts, out.deregistered, false);
    VisitAllShape(Remaining(ts, out.deregistered), out.order, out, convert, now);
  }

  /**
   * A surviving entry stays at its position among the survivors and keeps its id and
   * `firstDetect`; if the tracker does not know its id it is unchanged; if its id is visible
   * it gets the converted rect and `lastDetect = now`; if its id is hidden it gets the zero
   * rect and `lastDetect = now`.
   */
  lemma ReconcileExisting(ts: seq<TrackableObject>, out: TrackerOutput, convert: Rect -> Rect, now: real, j: nat)
    requires out.WellFormed()
    requires UniqueIds(ts)
    requires j < |Remaining(ts, out.deregistered)|
    ensures var t := Remaining(ts, out.deregistered)[j];
            var res := Reconcile(ts, out, convert, now);
            j < |res| && res[j].id == t.id && res[j].firstDetect == t.firstDetect &&
            (t.id !in out.objects ==> res[j] == t) &&
            (t.id in out.objects && t.id in out.inFrame ==>
               res[j].rect == convert(out.objects[t.id]) && res[j].lastDetect == now) &&
            (t.id in out.objects && t.id !in out.inFrame ==>
               res[j].rect == ZeroRect && res[j].lastDetect == now)
  {
    ReconcileShape(ts, out, convert, now);
  }

  /**
   * Everything after the survivors is new: each such entry has a visible tracker id that no
   * survivor carries, the converted rect, and `firstDetect == lastDetect == now`. In
   * particular a hidden id is never appended.
   */
  lemma ReconcileArrivals(ts: seq<TrackableObject>, out: TrackerOutput, convert: Rect -> Rect, now: real)
    requires out.WellFormed()
    requires UniqueIds(ts)
    ensures var r := Remaining(ts, out.deregistered);
            var res := Reconcile(ts, out, convert, now);
            |r| <= |res| &&
            forall j :: |r| <= j < |res| ==>
              res[j].id in out.objects && res[j].id in out.inFrame && res[j].id !in Ids(r) &&
              res[j].rect == convert(out.objects[res[j].id]) &&
              res[j].firstDetect == now && res[j].lastDetect == now
  {
    ReconcileShape(ts, out, convert, now);
    var r := Remaining(ts, out.deregistered);
    var u, a := Updated(r, out.order, out, convert, now), Arrivals(r, out.order, out, convert, now);
    var res := u + a;
    assert |u| == |r|;
    forall j | |r| <= j < |res|
      ensures res[j] == Arrival(res[j].id, out, convert, now) && res[j].id in out.inFrame && res[j].id !in Ids(r)
    {
      assert res[j] == a[j - |r|];
    }
  }

  /** Every visible tracker id that no survivor carries is appended. */
  lemma ReconcileArrivalsComplete(ts: seq<TrackableObject>, out: TrackerOutput, convert: Rect -> Rect, now: real, k: int)
    requires out.WellFormed()
    requires UniqueIds(ts)
    requires k in out.objects && k in out.inFrame && k !in Ids(Remaining(ts, out.deregistered))
    ensures var res := Reconcile(ts, out, convert, now);
            exists j :: |Remaining(ts, out.deregistered)| <= j < |res| && res[j].id == k
  {
    ReconcileShape(ts, out, convert, now);
    var r := Remaining(ts, out.deregistered);
    var u, a := Updated(r, out.order, out, convert, now), Arrivals(r, out.order, out, convert, now);
    assert k in out.order;
    assert k in Ids(a);
    var i :| 0 <= i < |a| && a[i].id == k;
    assert (u + a)[|r| + i].id == k;
  }

  /** Reconciling keeps ids unique. */
  lemma ReconcileUnique(ts: seq<TrackableObject>, out: TrackerOutput, convert: Rect -> Rect, now: real)
    requires out.WellFormed()
    requires UniqueIds(ts)
    ensures UniqueIds(Reconcile(ts, out, convert, now))
  {
    ReconcileShape(ts, out, convert, now);
    var r := Remaining(ts, out.deregistered);
    SelectUnique(ts, out.deregistered, false);
    ArrivalsUnique(r, out.order, out, convert, now);
    var u, a := Updated(r, out.order, out, convert, now), Arrivals(r, out.order, out, convert, now);
    assert forall i :: 0 <= i < |u| ==> u[i].id == r[i].id;
    forall i, j | 0 <= i < j < |u + a|
      ensures (u + a)[i].id != (u + a)[j].id
    {
      if j >= |u| && i < |u| {
        assert (u + a)[j].id !in Ids(r);
      }
    }
  }

  /**
   * After the call, an entry carries an id the tracker deregistered exactly when the tracker
   * still lists that id as a visible key: such an id comes back as a new arrival, and when the
   * deregistered ids are no longer tracker keys, no entry carries one.
   */
  lemma ReconcileRemovesEvicted(ts: seq<TrackableObject>, out: TrackerOutput, convert: Rect -> Rect, now: real)
    requires out.WellFormed()
    requires UniqueIds(ts)
    ensures forall t :: t in Reconcile(ts, out, convert, now) && t.id in out.deregistered ==>
              t.id in out.objects && t.id in out.inFrame
    ensures forall k :: k in out.deregistered && k in out.objects && k in out.inFrame ==>
              exists t :: t in Reconcile(ts, out, convert, now) && t.id == k
  {
    ReconcileShape(ts, out, convert, now);
    var r := Remaining(ts, out.deregistered);
    var u, a := Updated(r, out.order, out, convert, now), Arrivals(r, out.order, out, convert, now);
    forall t: TrackableObject | t in u + a && t.id in out.deregistered
      ensures t.id in out.objects && t.id in out.inFrame
    {
      var i :| 0 <= i < |u + a| && (u + a)[i] == t;
    }
    forall k | k in out.deregistered && k in out.objects && k in out.inFrame
      ensures exists t :: t in Reconcile(ts, out, convert, now) && t.id == k
    {
      assert forall i :: 0 <= i < |r| ==> r[i] in r && r[i].id != k;
      ReconcileArrivalsComplete(ts, out, convert, now, k);
      var res := Reconcile(ts, out, convert, now);
      var j :| |r| <= j < |res| && res[j].id == k;
      assert res[j] in res;
    }
  }

  /** Entries whose id is neither deregistered nor a tracker key come through unchanged. */
  lemma ReconcileUntouched(ts: seq<TrackableObject>, out: TrackerOutput, convert: Rect -> Rect, now: real)
    requires out.WellFormed()
    requires UniqueIds(ts)
    ensures forall t :: t in ts && t.id !in out.deregistered && t.id !in out.objects ==>
              t in Reconcile(ts, out, convert, now)
  {
    ReconcileShape(ts, out, convert, now);
    var r := Remaining(ts, out.deregistered);
    var u := Updated(r, out.order, out, convert, now);
    forall t | t in ts && t.id !in out.deregistered && t.id !in out.objects
      ensures t in u
    {
      assert t in r;
      var i :| 0 <= i < |r| && r[i] == t;
      assert u[i] == t;
    }
  }

  /**
   * When the clock does not run backwards past any `firstDetect`, every entry stays
   * chronological (`lastDetect >= firstDetect`), so every tracked time is non-negative.
   */
  lemma ReconcileChronological(ts: seq<TrackableObject>, out: TrackerOutput, convert: Rect -> Rect, now: real)
    requires out.WellFormed()
    requires UniqueIds(ts)
    requires forall t :: t in ts ==> Chronological(t) && t.firstDetect <= now
    ensures forall t :: t in Reconcile(ts, out, convert, now) ==> Chronological(t)
  {
    ReconcileShape(ts, out, convert, now);
    var r := Remaining(ts, out.deregistered);
    var u, a := Updated(r, out.order, out, convert, now), Arrivals(r, out.order, out, convert, now);
    forall t: TrackableObject | t in u + a
      ensures Chronological(t)
    {
      var i :| 0 <= i < |u + a| && (u + a)[i] == t;
      if i < |u| {
        assert r[i] in r;
      }
    }
  }
}
