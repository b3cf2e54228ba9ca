/**
 * The frame-admission gate of the tracking model: the three fields `isTracking`,
 * `framePerSecond` and `canProcess`, and what a camera frame, a timer fire, a start/stop
 * and a change of frames-per-second do to them.
 *
 * The timer itself is not modelled: a fire is an event that may arrive at any time.
 */
module Admission {

  /** `maxFramePerSecond`. */
  const MaxFramePerSecond: real := 20.0

  /** The state the gate decides on. */
  datatype Gate = Gate(isTracking: bool, framePerSecond: real, canProcess: bool)

  /** Whether a camera frame is handed to the detector: tracking, and either continuous mode or a permit. */
  predicate Admits(g: Gate)
  {
    g.isTracking && ((g.framePerSecond > 0.0 && g.canProcess) || g.framePerSecond <= 0.0)
  }

  /** A camera frame arrives: the new state, and whether the frame was submitted. Submitting uses the permit. */
  function OnFrame(g: Gate): (Gate, bool)
  {
    if Admits(g) then (g.(canProcess := false), true) else (g, false)
  }

  /** `timerFired`: raise the permit. */
  function OnTimerFired(g: Gate): Gate
  {
    g.(canProcess := true)
  }

  /** Assigning `isTracking`: starting with a positive rate raises the permit so the first frame is admitted. */
  function OnSetTracking(g: Gate, newValue: bool): Gate
  {
    if newValue && g.framePerSecond > 0.0 then g.(isTracking := true, canProcess := true)
    else g.(isTracking := newValue)
  }

  /** Assigning `framePerSecond`: the stored value is the assigned one (see `ClampFramePerSecond`). */
  function OnSetFramePerSecond(g: Gate, newValue: real): Gate
  {
    g.(framePerSecond := newValue)
  }

  /**
   * The clamp computed in the `framePerSecond` observer: negative values become 0 and
   * values above the maximum become the maximum. Swift discards a store made inside a
   * property's own `willSet`, so this value is computed but never stored.
   */
  function ClampFramePerSecond(v: real): (r: real)
    ensures 0.0 <= r <= MaxFramePerSecond
    ensures 0.0 <= v <= MaxFramePerSecond ==> r == v
  {
    if v < 0.0 then 0.0 else if v < MaxFramePerSecond then v else MaxFramePerSecond
  }

  /** Because the gate only asks whether the rate is positive, the discarded clamp never changes an admission. */
  lemma ClampKeepsAdmission(g: Gate, v: real)
    ensures Admits(OnSetFramePerSecond(g, v)) == Admits(OnSetFramePerSecond(g, ClampFramePerSecond(v)))
  {
  }

  /** The events the gate reacts to between start and stop. */
  datatype Event = FrameArrived | TimerFire

  function Frames(events: seq<Event>): nat
    decreases |events|
  {
    if events == [] then 0 else (if events[0] == FrameArrived then 1 else 0) + Frames(events[1..])
  }

  /**
   * Replays `events` from `g`: the final state and how many frames were submitted.
   * Events never change whether tracking is on or the rate, and never submit more than the frames that arrived.
   */
  function Run(g: Gate, events: seq<Event>): (r: (Gate, nat))
    ensures r.1 <= Frames(events)
    ensures r.0.isTracking == g.isTracking && r.0.framePerSecond == g.framePerSecond
    decreases |events|
  {
    if events == [] then (g, 0)
    else if events[0] == FrameArrived then
      var step := OnFrame(g);
      var rest := Run(step.0, events[1..]);
      (rest.0, rest.1 + if step.1 then 1 else 0)
    else Run(OnTimerFired(g), events[1..])
  }

  /** The number of maximal runs of consecutive timer fires in `events`. */
  function PermitRuns(events: seq<Event>): nat
    decreases |events|
  {
    if events == [] then 0
    else (if events[0] == TimerFire && (|events| == 1 || events[1] != TimerFire) then 1 else 0) + PermitRuns(events[1..])
  }

  /** A second fire right after a first one changes nothing: fires do not accumulate. */
  lemma {:induction false} RepeatedFiresActOnce(g: Gate, rest: seq<Event>)
    ensures Run(g, [TimerFire, TimerFire] + rest) == Run(g, [TimerFire] + rest)
  {
  }

  /**
   * With a positive rate, each run of consecutive timer fires admits at most one frame:
   * the submissions never exceed the initial permit plus the number of fire runs.
   */
  lemma {:induction false} AtMostOneAdmissionPerPermit(g: Gate, events: seq<Event>)
    requires g.framePerSecond > 0.0
    ensures Run(g, events).1 <= (if g.canProcess then 1 else 0) + PermitRuns(events)
    decreases |events|
  {
    if events != [] {
      if events[0] == FrameArrived {
        AtMostOneAdmissionPerPermit(OnFrame(g).0, events[1..]);
      } else if |events| > 1 && events[1] == TimerFire {
        RepeatedFiresActOnce(g, events[2..]);
        assert events == [TimerFire, TimerFire] + events[2..];
        assert events[1..] == [TimerFire] + events[2..];
        AtMostOneAdmissionPerPermit(g, events[1..]);
      } else {
        AtMostOneAdmissionPerPermit(OnTimerFired(g), events[1..]);
      }
    }
  }

  /** While tracking is off, no frame is ever submitted, whatever the timer does. */
  lemma {:induction false} StoppedAdmitsNothing(g: Gate, events: seq<Event>)
    requires !g.isTracking
    ensures Run(g, events).1 == 0
    decreases |events|
  {
    if events != [] {
      if events[0] == FrameArrived {
        StoppedAdmitsNothing(OnFrame(g).0, events[1..]);
      } else {
        StoppedAdmitsNothing(OnTimerFired(g), events[1..]);
      }
    }
  }

  /** While tracking with a rate of 0 or less (continuous mode), every frame is submitted. */
  lemma {:induction false} ContinuousAdmitsEveryFrame(g: Gate, events: seq<Event>)
    requires g.isTracking && g.framePerSecond <= 0.0
    ensures Run(g, events).1 == Frames(events)
    decreases |events|
  {
    if events != [] {
      if events[0] == FrameArrived {
        ContinuousAdmitsEveryFrame(OnFrame(g).0, events[1..]);
      } else {
        ContinuousAdmitsEveryFrame(OnTimerFired(g), events[1..]);
      }
    }
  }

  /** Starting to track admits the first frame, whatever the rate; stopping admits none. */
  lemma StartAdmitsFirstFrame(g: Gate)
    ensures Admits(OnSetTracking(g, true))
    ensures !Admits(OnSetTracking(g, false))
  {
  }
}
