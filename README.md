# ItsukiTracker tracking model, in Dafny

This project models the bookkeeping core of ItsukiTracker's `TrackingModel` and the
validation in its settings panel. Camera frames pass a rate gate on their way to a person
detector. The detector's observations go to a centroid tracker. The model then keeps two
lists up to date: `trackedObjects` (the identities currently followed) and
`deregisteredObjects` (the append-only history of evicted identities). The on-screen
average tracked time is derived from both lists.

Modules, one per concern of the source:

- `Trackables` (`trackables.dfy`): the `Rect` and `TrackableObject` values, `totalDetectionTime`
  and `averageTrackedTime`, and the lemmas that the average is the mean duration over both lists.
- `Reconciliation` (`reconcile.dfy`): what `processObservations` does to the two lists.
  - The confidence filter in front of the tracker.
  - The eviction of deregistered ids.
  - The loop over the tracker's keys, as the function `Reconcile`.
  - An independent description of `Reconcile`'s result (`Updated` + `Arrivals`), proved equal to it (`VisitAllShape`), and the properties derived from it.
- `Admission` (`admission.dfy`): the frame-admission gate over `isTracking`, `framePerSecond` and
  `canProcess`, as transition functions and event traces.
- `SettingRules` (`setting_rules.dfy`): the pure reject/clamp rules behind the settings handlers.
- `Tracking` (`tracking_model.dfy`): the class `TrackingModel`, whose methods update its fields in
  place. Each method is proved against the functions above. `TrackerSettings` holds the
  tracker's two runtime settings.
- `LiveTrackingView` (`live_tracking_view.dfy`): the class `SettingView`, with the slider commit and
  the two `onChange` handlers.
- `Wrappers` (`wrappers.dfy`): `Option`.

The tracker (`CentroidTracker`) is not part of this model. After `update(rects:)` it is described
only by its outputs (`TrackerOutput`):
- `objects`: a map from id to rect;
- `inFrame`: the ids visible this frame;
- `deregistered`: the ids evicted by this call;
- `order`: the order in which iterating the `objects` dictionary visits its keys, which Swift leaves unspecified.

Methods take the tracker as a function from the boxes it receives to these outputs.
`toImageCoordinates` is a parameter `convert: Rect -> Rect`, and the clock `Date()` is a parameter `now`.

Three behaviours of the code that are easy to misread:
- Setting `framePerSecond` stores the assigned value. The clamp in its `willSet` is overwritten by Swift.
  The gate only asks whether the rate is positive, so the clamp never changes a single gate decision (`ClampKeepsAdmission`).
  The rate also sets the timer period (`1.0/framePerSecond`), which is left out with the timers. A rate above 20 would still produce permits faster than the clamp intends. The slider never offers one (`SliderValueNeedsNoClamp`).
- Changing the rate while tracking schedules a new timer without invalidating the old one. The model does not claim cancel-then-restart.
- An id that the tracker both deregisters and still lists as visible is re-appended to `trackedObjects` as a new entry (`ReconcileRemovesEvicted` states that this happens exactly when the id is still a visible tracker key).

## Model

| member | source | states |
|---|---|---|
| `Trackables.TotalDetectionTime` | ItsukiTracker/Model/TrackingModel.swift:17-19 | the time between first and last detection; non-negative for a chronological entry (`SumDetectionTimesNonNegative`, `ReconcileChronological`) |
| `Trackables.SumDetectionTimes` | ItsukiTracker/Model/TrackingModel.swift:38-39 | the `reduce(0, +)` left fold of the durations; its properties are `SumDetectionTimesConcat`, `SumDetectionTimesBounds` and `SumDetectionTimesNonNegative` |
| `Trackables.AverageTrackedTime` | ItsukiTracker/Model/TrackingModel.swift:33-42 | `averageTrackedTime`; `AverageIsMean`, `AverageWithinBounds` and `AverageNonNegative` state what it computes |
| `Trackables.SumDetectionTimesConcat` | ItsukiTracker/Model/TrackingModel.swift:38-40 | summing the two lists separately and adding equals summing their concatenation |
| `Trackables.SumDetectionTimesBounds` | ItsukiTracker/Model/TrackingModel.swift:38-39 | if every duration lies in [lo, hi], the sum lies in [n·lo, n·hi] |
| `Trackables.SumDetectionTimesNonNegative` | ItsukiTracker/Model/TrackingModel.swift:17-19 | entries with `lastDetect >= firstDetect` sum to a non-negative total |
| `Trackables.AverageIsMean` | ItsukiTracker/Model/TrackingModel.swift:33-42 | with at least one entry, the average is the mean duration over active and evicted entries together |
| `Trackables.AverageWithinBounds` | ItsukiTracker/Model/TrackingModel.swift:33-42 | the average lies between the shortest and the longest duration |
| `Trackables.AverageNonNegative` | ItsukiTracker/Model/TrackingModel.swift:33-42 | the average is 0 when both lists are empty, and never negative when every entry is chronological |
| `Reconciliation.TrackerInput` | ItsukiTracker/Model/TrackingModel.swift:139 | a box reaches the tracker iff some observation with confidence strictly above 0.0 has it; no box is added |
| `Reconciliation.TrackerInputConcat` | ItsukiTracker/Model/TrackingModel.swift:139 | the filter preserves order: it distributes over concatenation |
| `Reconciliation.TrackerInputKeepsConfident` | ItsukiTracker/Model/TrackingModel.swift:139 | when every observation is confident, every box is passed, at its own index |
| `Reconciliation.Select` | ItsukiTracker/Model/TrackingModel.swift:150-156 | the evicted (or remaining) entries are exactly the entries whose id is (or is not) deregistered |
| `Reconciliation.SelectConcat` | ItsukiTracker/Model/TrackingModel.swift:150-156 | eviction and removal keep the pre-call order |
| `Reconciliation.EvictionConserves` | ItsukiTracker/Model/TrackingModel.swift:150-156 | every pre-call entry ends up exactly once, either kept or appended to the history |
| `Reconciliation.SelectUnique` | ItsukiTracker/Model/TrackingModel.swift:156 | removing entries keeps ids unique |
| `Reconciliation.Remaining` | ItsukiTracker/Model/TrackingModel.swift:156 | `removeAll(where:)`: the entries whose id is not deregistered, in order (`Select`, `SelectConcat`, `SelectUnique`) |
| `Reconciliation.Evicted` | ItsukiTracker/Model/TrackingModel.swift:150 | `filter`: the entries whose id is deregistered, in order; with `Remaining` it partitions the list (`EvictionConserves`) |
| `Reconciliation.FirstIndex` | ItsukiTracker/Model/TrackingModel.swift:159 | the result is the first index with that id, or none when no entry carries it |
| `Reconciliation.Refreshed` | ItsukiTracker/Model/TrackingModel.swift:162-177 | the update of an entry whose id the tracker knows: `lastDetect = now`, the converted rect if visible and the zero rect if not (`ReconcileExisting`) |
| `Reconciliation.Arrival` | ItsukiTracker/Model/TrackingModel.swift:180 | the entry appended for a new visible key, first and last seen now (`ReconcileArrivals`) |
| `Reconciliation.Visit` | ItsukiTracker/Model/TrackingModel.swift:159-181 | one loop iteration for one tracker key; `VisitKnown` and `VisitUnknown` state its two cases |
| `Reconciliation.VisitAll` | ItsukiTracker/Model/TrackingModel.swift:158-182 | the loop over the tracker's keys in iteration order; `VisitAllShape` proves it equal to the independent description |
| `Reconciliation.Reconcile` | ItsukiTracker/Model/TrackingModel.swift:142-182 | the new `trackedObjects`; its properties are the `Reconcile*` lemmas below, and `ProcessObservations` is proved to compute it |
| `Reconciliation.Arrivals` | ItsukiTracker/Model/TrackingModel.swift:174-181 | every arrival is a fresh entry for a visible key no survivor carries, and every such key arrives |
| `Reconciliation.ArrivalsUnique` | ItsukiTracker/Model/TrackingModel.swift:178-181 | distinct tracker keys give arrivals with distinct ids |
| `Reconciliation.VisitKnown` | ItsukiTracker/Model/TrackingModel.swift:159-177 | visiting a key a survivor carries refreshes that entry in place and appends nothing |
| `Reconciliation.VisitUnknown` | ItsukiTracker/Model/TrackingModel.swift:159-181 | visiting a key no entry carries appends it when visible and otherwise changes nothing |
| `Reconciliation.VisitAllShape` | ItsukiTracker/Model/TrackingModel.swift:158-182 | the loop yields the survivors, refreshed in place where the tracker knows them, followed by the arrivals in key order |
| `Reconciliation.ReconcileShape` | ItsukiTracker/Model/TrackingModel.swift:142-182 | the new `trackedObjects` is the independent description applied to the non-evicted entries |
| `Reconciliation.ReconcileExisting` | ItsukiTracker/Model/TrackingModel.swift:162-177 | a survivor keeps its place, id and `firstDetect`; it is unchanged if the tracker has no such key; if visible it gets the converted rect and `lastDetect = now`; if hidden it gets the zero rect and `lastDetect = now` |
| `Reconciliation.ReconcileArrivals` | ItsukiTracker/Model/TrackingModel.swift:162-181 | every appended entry is a visible key no survivor had, with the converted rect and `firstDetect == lastDetect == now`; hidden keys are never appended |
| `Reconciliation.ReconcileArrivalsComplete` | ItsukiTracker/Model/TrackingModel.swift:174-181 | every visible key that no survivor carries is appended |
| `Reconciliation.ReconcileUnique` | ItsukiTracker/Model/TrackingModel.swift:156-181 | ids stay unique if they were unique before |
| `Reconciliation.ReconcileRemovesEvicted` | ItsukiTracker/Model/TrackingModel.swift:150-181 | after the call some entry carries a deregistered id if and only if the tracker still lists that id as a visible key |
| `Reconciliation.ReconcileUntouched` | ItsukiTracker/Model/TrackingModel.swift:156-182 | entries whose id is neither deregistered nor a tracker key are left unchanged |
| `Reconciliation.ReconcileChronological` | ItsukiTracker/Model/TrackingModel.swift:166-180 | if `now` is not before any `firstDetect`, every entry keeps `lastDetect >= firstDetect` |
| `Admission.Admits` | ItsukiTracker/Model/TrackingModel.swift:112 | the admission test; `StoppedAdmitsNothing`, `ContinuousAdmitsEveryFrame` and `StartAdmitsFirstFrame` state when it holds |
| `Admission.OnFrame` | ItsukiTracker/Model/TrackingModel.swift:112-115 | a frame arrives: submit iff admitted, and submitting clears the permit; `HandleCameraPreview` is proved to follow it, `Run` and `AtMostOneAdmissionPerPermit` bound its traces |
| `Admission.OnTimerFired` | ItsukiTracker/Model/TrackingModel.swift:191-193 | a fire raises the permit; `RepeatedFiresActOnce` shows that fires do not accumulate |
| `Admission.OnSetTracking` | ItsukiTracker/Model/TrackingModel.swift:44-61 | a start with a positive rate raises the permit, a stop leaves it; `StartAdmitsFirstFrame` states the effect on admission |
| `Admission.OnSetFramePerSecond` | ItsukiTracker/Model/TrackingModel.swift:63-81 | the assigned rate is stored unclamped; `ClampKeepsAdmission` shows the discarded clamp would not change a gate decision |
| `Admission.ClampFramePerSecond` | ItsukiTracker/Model/TrackingModel.swift:64-69 | the clamp expression lands in [0, 20] and leaves values already in range unchanged |
| `Admission.ClampKeepsAdmission` | ItsukiTracker/Model/TrackingModel.swift:63-81 | storing the unclamped value gives the same admission decision as storing the clamped one |
| `Admission.Run` | ItsukiTracker/Model/TrackingModel.swift:112-115 | frames and timer fires never change tracking or the rate, and never submit more frames than arrived |
| `Admission.RepeatedFiresActOnce` | ItsukiTracker/Model/TrackingModel.swift:191-193 | a second consecutive timer fire changes nothing |
| `Admission.AtMostOneAdmissionPerPermit` | ItsukiTracker/Model/TrackingModel.swift:112-115 | with a positive rate, submissions never exceed the initial permit plus the number of runs of consecutive fires |
| `Admission.StoppedAdmitsNothing` | ItsukiTracker/Model/TrackingModel.swift:112-115 | while not tracking, no frame is submitted |
| `Admission.ContinuousAdmitsEveryFrame` | ItsukiTracker/Model/TrackingModel.swift:112-115 | while tracking with a rate of 0 or less, every frame is submitted |
| `Admission.StartAdmitsFirstFrame` | ItsukiTracker/Model/TrackingModel.swift:44-56 | after a start the next frame is admitted; after a stop it is not |
| `SettingRules.AcceptFrameCount` | ItsukiTracker/View/LiveTrackingView.swift:251-257 | the tracker keeps its value or takes the entry, and stays positive |
| `SettingRules.ApplyFrameCountEdits` | ItsukiTracker/View/LiveTrackingView.swift:251-257 | the tracker's count after a series of field edits; `ApplyFrameCountEditsSnoc` and `FrameCountEditsKeepPositive` characterise it |
| `SettingRules.FrameCountEditsKeepPositive` | ItsukiTracker/View/LiveTrackingView.swift:251-257 | from a positive start, after any edits the count is the last positive entry (or the start) and is positive |
| `SettingRules.ClampDistance` | ItsukiTracker/View/LiveTrackingView.swift:258-268 | the result lies in [0, √2]; entries in (0, √2] pass through unchanged |
| `SettingRules.ClampDistanceNearest` | ItsukiTracker/View/LiveTrackingView.swift:258-268 | the clamped value is the allowed value nearest to the entry (so >√2 gives √2, ≤0 gives 0) |
| `SettingRules.ClampDistanceIdempotent` | ItsukiTracker/View/LiveTrackingView.swift:258-268 | clamping a clamped value is a no-op |
| `SettingRules.ClampDistanceMonotone` | ItsukiTracker/View/LiveTrackingView.swift:258-268 | a larger entry never gives a smaller threshold |
| `SettingRules.SliderValue` | ItsukiTracker/View/LiveTrackingView.swift:149-152 | the slider's value at a step, in steps of 0.5 from 0; `SliderValueNeedsNoClamp` relates it to the rate clamp |
| `SettingRules.SliderValueNeedsNoClamp` | ItsukiTracker/View/LiveTrackingView.swift:149-152 | for a position within the slider's range [0, 20], the slider value is a fixed point of the rate clamp |
| `Tracking.TrackerSettings.constructor` | ItsukiTracker/Model/TrackingModel.swift:26 | the tracker starts with the given frame count and distance |
| `Tracking.TrackingModel.constructor` | ItsukiTracker/Model/TrackingModel.swift:26-31 | both lists are empty, not tracking, rate 0, no permit, tracker at 10 and 0.2 |
| `Tracking.TrackingModel.AverageTrackedTime` | ItsukiTracker/Model/TrackingModel.swift:33-42 | the model's average over its two lists, the `Trackables.AverageTrackedTime` of its fields |
| `Tracking.TrackingModel.SetIsTracking` | ItsukiTracker/Model/TrackingModel.swift:44-61 | a start empties `trackedObjects` and with a positive rate raises the permit; `deregisteredObjects` never changes |
| `Tracking.TrackingModel.SetFramePerSecond` | ItsukiTracker/Model/TrackingModel.swift:63-81 | the assigned value is stored as it is |
| `Tracking.TrackingModel.TimerFired` | ItsukiTracker/Model/TrackingModel.swift:191-193 | only the permit changes, and it becomes true |
| `Tracking.TrackingModel.HandleCameraPreview` | ItsukiTracker/Model/TrackingModel.swift:112-115 | a frame is submitted iff tracking and (rate ≤ 0 or permit); submitting clears the permit |
| `Tracking.TrackingModel.HandleVisionObservations` | ItsukiTracker/Model/TrackingModel.swift:121-132 | a batch changes the lists only while tracking |
| `Tracking.TrackingModel.ProcessObservations` | ItsukiTracker/Model/TrackingModel.swift:137-184 | the history gains exactly the pre-call entries with deregistered ids, in order; `trackedObjects` becomes `Reconcile` of its old value; ids stay unique |
| `LiveTrackingView.SettingView.constructor` | ItsukiTracker/View/LiveTrackingView.swift:246-250 | the fields start from the model's and tracker's values |
| `LiveTrackingView.SettingView.SlideTo` | ItsukiTracker/View/LiveTrackingView.swift:149-152 | dragging changes only the panel's field, to a value in [0, 20] |
| `LiveTrackingView.SettingView.EditingChanged` | ItsukiTracker/View/LiveTrackingView.swift:153-156 | the model's rate changes only when editing ends, to the slider value |
| `LiveTrackingView.SettingView.FrameCountChanged` | ItsukiTracker/View/LiveTrackingView.swift:251-257 | a non-positive entry is rejected and the field reset to the tracker's count; a positive one is stored; the tracker's count stays positive |
| `LiveTrackingView.SettingView.DistanceChanged` | ItsukiTracker/View/LiveTrackingView.swift:258-268 | field and tracker both end with the clamped entry, which lies in [0, √2] |

## Left out

- `CentroidTracker` (the greedy nearest-neighbour assignment, miss counting and eviction) is not part of this model. Its outputs after `update(rects:)` are arbitrary inputs, and the dictionary's iteration order is an input.
- `CameraManager` and `VisionManager` (frame capture, the Vision request and its asynchronous stream) are external: a submitted frame is reported by `HandleCameraPreview`'s result. `VisionManager`'s busy flag is not modelled, so nothing here claims single-flight detection.
- Timers: scheduling and invalidating the repeating timer (and the fact that a rate change does not invalidate the previous timer) are not modelled. A timer fire is an event that may arrive at any time, so the model says nothing about how often permits arrive. In particular, an unclamped rate above 20 sets a shorter timer period.
- The `for await` loops and `@MainActor` task hops: each handler body is one sequential step.
- `toImageCoordinates` and `setFrameSize`: the conversion is the parameter `convert`.
- `Date()`: one `now` per call. In the source each `Date()` reads the clock again, so a new entry's `firstDetect` and `lastDetect` may differ by the time between the two reads.
- `Float`, `CGFloat` and `Double` rounding: durations, confidences and distances are `real`. `sqrt(2)` is the decimal 1.4142135623730951, and the panel's `Float` field and the tracker's `CGFloat` are not told apart.
- SwiftUI re-running an `onChange` handler after the handler's own store: each handler is modelled as one call. `ClampDistanceIdempotent` and `AcceptFrameCount` show that a second run changes nothing.
- `previewImage`, all rendering and layout, and the other views.
