/**
 * The view model inside its activity.  The activity collects `captureEvents`
 * and, for each one, starts taking a photo; when the photo is saved it calls
 * `onPhotoCaptureComplete`, and when saving fails it only logs the error.
 * A session is a run of the view model driven by recognizer results, recognizer
 * errors, clock ticks and the outcomes of the captures it started.
 *
 * The properties of the whole gate are stated over such runs: a capture needs
 * (true, true) to hold for STABILITY_THRESHOLD ms, a second capture needs a
 * saved photo and CAPTURE_COUNTDOWN ms after it, and a failed save closes the
 * gate for good.
 */
module Session {
  import opened Optional
  import opened Conditions
  import opened CaptureGate

  /** The recognizer helper's constants, which are not part of this model. */
  datatype Config = Config(facesCount: nat, handsCount: nat, threshold: real)

  datatype Event =
    | FaceResult(blendshapes: Option<seq<seq<Category>>>)  // onFaceLandmarkerResults
    | GestureResult(hands: seq<seq<Category>>)             // onGestureResults, gestures of its first result
    | FaceError                                            // onFaceLandmarkerError
    | GestureError                                         // onGestureError
    | ClockTick                                            // one millisecond passes
    | PhotoSaved                                           // a started capture is saved
    | PhotoFailed                                          // a started capture fails, or there was no camera to take it

  /** The view model's state, and how many captures the activity has started and not yet heard back about. */
  datatype Session = Session(gate: Gate, capturing: nat)

  function Initial(): Session {
    Session(Init(), 0)
  }

  /** A capture event fires during this step. */
  predicate Fires(s: Session, e: Event) {
    e.ClockTick? && Tick(s.gate).fired
  }

  function Step(c: Config, s: Session, e: Event): Session {
    match e
    case FaceResult(blendshapes) =>
      s.(gate := SetFaceOk(s.gate, FaceOk(blendshapes, c.facesCount, c.threshold)))
    case GestureResult(hands) =>
      s.(gate := SetGestureOk(s.gate, GestureOk(hands, c.handsCount)))
    case FaceError => s
    case GestureError => s
    case ClockTick =>
      var t := Tick(s.gate);
      Session(t.gate, if t.fired then s.capturing + 1 else s.capturing)
    case PhotoSaved =>
      if s.capturing > 0 then Session(PhotoCaptureComplete(s.gate), s.capturing - 1) else s
    case PhotoFailed =>
      if s.capturing > 0 then s.(capturing := s.capturing - 1) else s
  }

  /** `states` is the run of the session that the events `es` drive from its start. */
  ghost predicate IsRun(c: Config, states: seq<Session>, es: seq<Event>) {
    && |states| == |es| + 1
    && states[0] == Initial()
    && forall i :: 0 <= i < |es| ==> states[i + 1] == Step(c, states[i], es[i])
  }

  /**
   * What can still lead to a capture: the camera being ready, a launched
   * re-arm, or a capture whose save would launch one.
   */
  function Tokens(s: Session): nat {
    (if s.gate.cameraReady then 1 else 0) + |s.gate.rearms| + s.capturing
  }

  ghost predicate Inv(s: Session) {
    Valid(s.gate) && Tokens(s) <= 1
  }

  // ---------------------------------------------------------------------
  // One step

  /** Events other than a tick leave the clock and the debouncer alone. */
  lemma EventKeepsDebouncer(c: Config, s: Session, e: Event)
    requires !e.ClockTick?
    ensures Step(c, s, e).gate.now == s.gate.now
    ensures Step(c, s, e).gate.Fused() == s.gate.Fused()
    ensures Step(c, s, e).gate.pending == s.gate.pending
    ensures Step(c, s, e).gate.pendingSince == s.gate.pendingSince
    ensures e != PhotoSaved || s.capturing == 0 ==> Step(c, s, e).gate.rearms == s.gate.rearms
    ensures e == PhotoSaved && s.capturing > 0 ==>
      Step(c, s, e).gate.rearms == s.gate.rearms + [s.gate.now + CAPTURE_COUNTDOWN]
  {
  }

  /** Every step keeps the session consistent, and the clock moves only on ticks. */
  lemma StepInv(c: Config, s: Session, e: Event)
    requires Inv(s)
    ensures Inv(Step(c, s, e))
    ensures Step(c, s, e).gate.now == if e.ClockTick? then s.gate.now + 1 else s.gate.now
  {
    if e.ClockTick? {
      TickPreservesValid(s.gate);
      TickConservesTokens(s.gate);
      TickSamples(s.gate);
    } else {
      EventKeepsDebouncer(c, s, e);
    }
  }

  lemma {:induction false} RunInv(c: Config, states: seq<Session>, es: seq<Event>, j: nat)
    requires IsRun(c, states, es) && j < |states|
    ensures Inv(states[j])
  {
    if j > 0 {
      RunInv(c, states, es, j - 1);
      StepInv(c, states[j - 1], es[j - 1]);
    }
  }

  /** The clock never runs backwards. */
  lemma {:induction false} ClockMonotone(c: Config, states: seq<Session>, es: seq<Event>, i: nat, j: nat)
    requires IsRun(c, states, es) && i <= j < |states|
    ensures states[i].gate.now <= states[j].gate.now
  {
    if i < j {
      ClockMonotone(c, states, es, i, j - 1);
      RunInv(c, states, es, j - 1);
      StepInv(c, states[j - 1], es[j - 1]);
    }
  }

  // ---------------------------------------------------------------------
  // A capture needs a stable window

  /** A pair still waiting at step k has been waiting, unchanged, at every earlier step since it arrived. */
  lemma {:induction false} WaitingSince(c: Config, states: seq<Session>, es: seq<Event>, j: nat, k: nat, q: Pair, p: int)
    requires IsRun(c, states, es) && j <= k < |states|
    requires states[k].gate.pending == Some(q) && states[k].gate.pendingSince == p
    requires states[j].gate.now >= p
    ensures states[j].gate.pending == Some(q) && states[j].gate.pendingSince == p
    decreases k - j
  {
    if j < k {
      ClockMonotone(c, states, es, j, j + 1);
      WaitingSince(c, states, es, j + 1, k, q, p);
      RunInv(c, states, es, j);
      if es[j].ClockTick? {
        TickRestartsWait(states[j].gate);
      } else {
        EventKeepsDebouncer(c, states[j], es[j]);
      }
    }
  }

  /** At every step up to k whose clock has reached p, the pair was (true, true). */
  ghost predicate BothReadySince(states: seq<Session>, k: nat, p: int)
    requires k < |states|
  {
    forall j :: 0 <= j <= k && states[j].gate.now >= p ==> states[j].gate.Fused() == BOTH_READY
  }

  /**
   * A capture fires only after the pair (bothOk, cameraReady) has been
   * (true, true) at every step of the STABILITY_THRESHOLD ms before it.
   */
  lemma FireRequiresStableWindow(c: Config, states: seq<Session>, es: seq<Event>, k: nat)
    requires IsRun(c, states, es) && k < |es| && Fires(states[k], es[k])
    ensures exists p :: p + STABILITY_THRESHOLD <= states[k + 1].gate.now && BothReadySince(states, k, p)
  {
    RunInv(c, states, es, k);
    TickFires(states[k].gate);
    TickSamples(states[k].gate);
    var p := states[k].gate.pendingSince;
    forall j | 0 <= j <= k && states[j].gate.now >= p
      ensures states[j].gate.Fused() == BOTH_READY
    {
      WaitingSince(c, states, es, j, k, BOTH_READY, p);
      RunInv(c, states, es, j);
    }
    assert BothReadySince(states, k, p);
  }

  // ---------------------------------------------------------------------
  // No second capture without a saved photo and a full countdown

  /** Between steps i and j the activity reported a saved photo early enough for a deadline x. */
  ghost predicate SavedBy(states: seq<Session>, es: seq<Event>, i: nat, j: nat, x: int) {
    exists m :: i < m < j && m < |es| && m < |states| && es[m] == PhotoSaved && states[m].capturing > 0
      && states[m].gate.now + CAPTURE_COUNTDOWN <= x
  }

  /**
   * After the capture at step i, everything that could open the camera again
   * comes from a photo saved after step i: each launched re-arm, the camera's
   * readiness, and the wait of a pair seen while it is ready.
   */
  ghost predicate OpenedBySave(states: seq<Session>, es: seq<Event>, i: nat, j: nat)
    requires j < |states|
  {
    var g := states[j].gate;
    && (forall d :: d in g.rearms ==> SavedBy(states, es, i, j, d))
    && (g.cameraReady ==> SavedBy(states, es, i, j, g.now))
    && (g.cameraReady && g.pending.Some? ==> SavedBy(states, es, i, j, g.pendingSince))
  }

  /** A capture closes the camera and leaves no re-arm outstanding. */
  lemma AfterFire(c: Config, s: Session)
    requires Inv(s) && Fires(s, ClockTick)
    ensures !Step(c, s, ClockTick).gate.cameraReady && Step(c, s, ClockTick).gate.rearms == []
  {
    TickFires(s.gate);
    TickConservesTokens(s.gate);
  }

  lemma SavedByLater(states: seq<Session>, es: seq<Event>, i: nat, j: nat, x: int, y: int)
    requires SavedBy(states, es, i, j, x) && j < |es| && x <= y
    ensures SavedBy(states, es, i, j + 1, y)
  {
  }

  lemma OpenedBySaveTick(c: Config, states: seq<Session>, es: seq<Event>, i: nat, j: nat)
    requires IsRun(c, states, es) && i < j < |es| && es[j].ClockTick?
    requires Inv(states[j]) && OpenedBySave(states, es, i, j)
    ensures OpenedBySave(states, es, i, j + 1)
  {
    var g, h := states[j].gate, states[j + 1].gate;
    TickSamples(g);
    TickCameraReady(g);
    TickRestartsWait(g);
    forall d | d in h.rearms
      ensures SavedBy(states, es, i, j + 1, d)
    {
      SavedByLater(states, es, i, j, d, d);
    }
    if h.cameraReady {
      if g.cameraReady {
        SavedByLater(states, es, i, j, g.now, h.now);
      } else {
        var d :| d in g.rearms && d <= g.now + 1;
        SavedByLater(states, es, i, j, d, h.now);
      }
      if h.pending.Some? && h.pendingSince <= g.now {
        SavedByLater(states, es, i, j, g.pendingSince, h.pendingSince);
      } else if h.pending.Some? {
        assert h.pendingSince == h.now by {
          TickPreservesValid(g);
        }
      }
    }
  }

  lemma OpenedBySaveEvent(c: Config, states: seq<Session>, es: seq<Event>, i: nat, j: nat)
    requires IsRun(c, states, es) && i < j < |es| && !es[j].ClockTick?
    requires OpenedBySave(states, es, i, j)
    ensures OpenedBySave(states, es, i, j + 1)
  {
    var g, h := states[j].gate, states[j + 1].gate;
    EventKeepsDebouncer(c, states[j], es[j]);
    forall d | d in h.rearms
      ensures SavedBy(states, es, i, j + 1, d)
    {
      if d in g.rearms {
        SavedByLater(states, es, i, j, d, d);
      } else {
        assert es[j] == PhotoSaved && states[j].capturing > 0 && d == g.now + CAPTURE_COUNTDOWN;
      }
    }
    if h.cameraReady {
      SavedByLater(states, es, i, j, g.now, h.now);
      if h.pending.Some? {
        SavedByLater(states, es, i, j, g.pendingSince, h.pendingSince);
      }
    }
  }

  lemma {:induction false} OpenedBySaveFrom(c: Config, states: seq<Session>, es: seq<Event>, i: nat, j: nat)
    requires IsRun(c, states, es) && i < j < |states| && Fires(states[i], es[i])
    ensures OpenedBySave(states, es, i, j)
  {
    if j == i + 1 {
      RunInv(c, states, es, i);
      AfterFire(c, states[i]);
    } else {
      OpenedBySaveFrom(c, states, es, i, j - 1);
      if es[j - 1].ClockTick? {
        RunInv(c, states, es, j - 1);
        OpenedBySaveTick(c, states, es, i, j - 1);
      } else {
        OpenedBySaveEvent(c, states, es, i, j - 1);
      }
    }
  }

  /**
   * Between two captures the activity reported a saved photo, and the second
   * capture comes at least CAPTURE_COUNTDOWN + STABILITY_THRESHOLD ms after
   * that report.
   */
  lemma NoRefireWithoutCompletion(c: Config, states: seq<Session>, es: seq<Event>, i: nat, k: nat)
    requires IsRun(c, states, es) && i < k < |es|
    requires Fires(states[i], es[i]) && Fires(states[k], es[k])
    ensures exists m ::
      && i < m < k && es[m] == PhotoSaved && states[m].capturing > 0
      && states[m].gate.now + CAPTURE_COUNTDOWN + STABILITY_THRESHOLD <= states[k + 1].gate.now
  {
    OpenedBySaveFrom(c, states, es, i, k);
    RunInv(c, states, es, k);
    TickFires(states[k].gate);
    TickSamples(states[k].gate);
  }

  // ---------------------------------------------------------------------
  // A failed save closes the gate for good

  /** A session with nothing left that could lead to a capture stays that way. */
  lemma ExhaustedStaysExhausted(c: Config, s: Session, e: Event)
    requires Inv(s) && Tokens(s) == 0
    ensures Tokens(Step(c, s, e)) == 0 && !Fires(s, e)
  {
    if e.ClockTick? {
      TickConservesTokens(s.gate);
    } else {
      EventKeepsDebouncer(c, s, e);
    }
  }

  lemma {:induction false} ExhaustedFrom(c: Config, states: seq<Session>, es: seq<Event>, m: nat, k: nat)
    requires IsRun(c, states, es) && m <= k < |states| && Tokens(states[m]) == 0
    ensures Tokens(states[k]) == 0
  {
    if m < k {
      ExhaustedFrom(c, states, es, m, k - 1);
      RunInv(c, states, es, k - 1);
      ExhaustedStaysExhausted(c, states[k - 1], es[k - 1]);
    }
  }

  /**
   * The activity calls `onPhotoCaptureComplete` only for a saved photo: once a
   * capture fails, the camera is never ready again and no capture ever fires.
   */
  lemma FailedCaptureStopsFiring(c: Config, states: seq<Session>, es: seq<Event>, m: nat, k: nat)
    requires IsRun(c, states, es) && m < k < |es|
    requires es[m] == PhotoFailed && states[m].capturing > 0
    ensures !Fires(states[k], es[k]) && !states[k + 1].gate.cameraReady
  {
    RunInv(c, states, es, m);
    ExhaustedFrom(c, states, es, m + 1, k);
    RunInv(c, states, es, k);
    ExhaustedStaysExhausted(c, states[k], es[k]);
  }
}
