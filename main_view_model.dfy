/**
 * The view model itself: the condition callbacks from the recognizer, the
 * completion callback from the activity, and the capture gate's flows, as
 * a class whose fields are the flows' current values and the debouncer's
 * held-back pair with its arrival time.  Coroutine scheduling becomes the
 * `Tick` method, which the environment calls once per millisecond.
 */
module ViewModel {
  import opened Optional
  import opened Conditions
  import opened CaptureGate

  class MainViewModel {
    // Constants of the recognizer helper, which is not part of this model.
    const facesCount: nat
    const handsCount: nat
    const faceShapeScoreThreshold: real

    var now: int
    var faceOk: bool
    var gestureOk: bool
    var bothOk: bool
    var cameraReady: bool
    var pending: Option<Pair>
    var pendingSince: int
    var rearms: seq<int>

    /** The fields as a value of the specification. */
    function State(): Gate
      reads this
    {
      Gate(now, faceOk, gestureOk, bothOk, cameraReady, pending, pendingSince, rearms)
    }

    /** The view model as created: both conditions false and the camera ready. */
    constructor (facesCount: nat, handsCount: nat, faceShapeScoreThreshold: real)
      ensures State() == Init() && Valid(State())
      ensures !faceOk && !gestureOk && !bothOk && cameraReady
      ensures this.facesCount == facesCount && this.handsCount == handsCount
      ensures this.faceShapeScoreThreshold == faceShapeScoreThreshold
    {
      this.facesCount := facesCount;
      this.handsCount := handsCount;
      this.faceShapeScoreThreshold := faceShapeScoreThreshold;
      now := 0;
      faceOk, gestureOk := false, false;
      bothOk := false;
      cameraReady := true;
      pending, pendingSince := Some(Pair(false, true)), 0;
      rearms := [];
    }

    /** A face landmarker error is only logged. */
    method OnFaceLandmarkerError(error: string, errorCode: int)
      ensures State() == old(State())
    {
    }

    /** A face result replaces the face condition and nothing else. */
    method OnFaceLandmarkerResults(blendshapes: Option<seq<seq<Category>>>)
      modifies this
      ensures faceOk == FaceOk(blendshapes, facesCount, faceShapeScoreThreshold)
      ensures State() == SetFaceOk(old(State()), faceOk)
    {
      faceOk := FaceOk(blendshapes, facesCount, faceShapeScoreThreshold);
    }

    /** A gesture recognizer error is only logged. */
    method OnGestureError(error: string, errorCode: int)
      ensures State() == old(State())
    {
    }

    /**
     * A gesture result replaces the gesture condition and nothing else.  The
     * result list must not be empty: its `first()` would throw.
     */
    method OnGestureResults(results: seq<seq<seq<Category>>>)
      requires results != []
      modifies this
      ensures gestureOk == GestureOk(results[0], handsCount)
      ensures State() == SetGestureOk(old(State()), gestureOk)
    {
      gestureOk := GestureOk(results[0], handsCount);
    }

    /** The activity reports a saved photo: a re-arm is launched for CAPTURE_COUNTDOWN ms later. */
    method OnPhotoCaptureComplete()
      modifies this
      ensures rearms == old(rearms) + [now + CAPTURE_COUNTDOWN]
      ensures State() == PhotoCaptureComplete(old(State()))
    {
      rearms := rearms + [now + CAPTURE_COUNTDOWN];
    }

    /**
     * One millisecond passes: due re-arms open the camera, the samplers
     * refresh bothOk at their instants, and the debouncer releases a pair that
     * has waited long enough; `captured` says whether a capture event fired.
     */
    method Tick() returns (captured: bool)
      requires Valid(State())
      modifies this
      ensures Valid(State())
      ensures CaptureGate.Tick(old(State())) == Ticked(State(), captured)
    {
      ghost var before := State();
      AdvanceClock();
      ghost var advanced := State();
      RunRearms();
      ghost var expired := State();
      RunSamplers();
      ghost var sampled := State();
      captured := RunDebouncer();
      TickStages(before, advanced, expired, sampled);
      TickPreservesValid(before);
    }

    // The four stages of Tick.  They are meant to be called only from Tick, in
    // this order: on their own they need not keep Valid(State()) (advancing the
    // clock alone can pass a re-arm deadline).

    /** The clock moves on by one millisecond. */
    method AdvanceClock()
      modifies this
      ensures State() == old(State()).(now := old(now) + 1)
    {
      now := now + 1;
    }

    /** The launched re-arm coroutines whose delay has run out emit `true` to _isCameraReady. */
    method RunRearms()
      modifies this
      ensures State() == ExpireRearms(old(State()))
    {
      if AnyDue(rearms, now) {
        rearms := Later(rearms, now);
        if !cameraReady {
          cameraReady := true;
          pending, pendingSince := Some(Pair(bothOk, true)), now;
        }
      }
    }

    /** At a sampling instant both samplers pass on the latest conditions to `combine`. */
    method RunSamplers()
      modifies this
      ensures State() == Sample(old(State()))
    {
      if IsSamplingInstant(now) {
        if bothOk != (gestureOk && faceOk) {
          bothOk := gestureOk && faceOk;
          pending, pendingSince := Some(Pair(bothOk, cameraReady)), now;
        }
      }
    }

    /** The debouncer releases a pair that has waited long enough; (true, true) fires a capture. */
    method RunDebouncer() returns (captured: bool)
      modifies this
      ensures Debounce(old(State())) == Ticked(State(), captured)
    {
      captured := false;
      if pending.Some? && now - pendingSince >= STABILITY_THRESHOLD {
        var released := pending.value;
        pending := None;
        if released == BOTH_READY {
          captured := true;
          if cameraReady {
            cameraReady := false;
            pending, pendingSince := Some(Pair(bothOk, false)), now;
          }
        }
      }
    }
  }
}
