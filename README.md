# Holistic selfie capture gate, in Dafny

This project models the view model of the MediaPipe selfie demo app. The app
watches the camera stream and takes a selfie by itself once two conditions hold:

- the face is smiling (every blendshape category containing `mouthSmile` scores
  above a threshold);
- the hand shows a thumb up (the top gesture label of every hand is `Thumb_Up`).

The view model turns each recognizer result into two booleans, `faceOk` and
`gestureOk`. It feeds them through a coroutine-flow pipeline:

1. Both booleans are sampled every 100 ms, and their conjunction becomes `_bothOk`.
2. `_bothOk` is combined with the camera-ready flag.
3. The pair is debounced for 500 ms.
4. A pair that is still (true, true) after the debounce fires a capture event and
   clears the ready flag.

`onPhotoCaptureComplete` sets the ready flag again 3000 ms after it is called.

The model has four modules:

- `Conditions` (`conditions.dfy`): the two condition predicates as pure functions.
  - Kotlin's `take`, `filter`, `all`, `mapNotNull { firstOrNull() }` and
    `String.contains` are written out, with their vacuous cases.
  - Lemmas state what each predicate means.
- `CaptureGate` (`capture_gate.dfy`): the flow pipeline as a discrete-time state
  machine on a 1 ms clock.
  - A `Gate` value holds the latest conditions, `_bothOk`, `_isCameraReady`, the
    pair held back by the debouncer with its arrival time, and the deadlines of the
    launched re-arm coroutines.
  - `Tick` advances the clock by one millisecond and runs the timers due at the new
    instant, in a fixed order: first re-arms, then the samplers, then the debouncer.
  - Each stage is described by a relation between the states before and after it.
    The lemmas about a whole tick are proved from those relations.
- `ViewModel` (`main_view_model.dfy`): the class `MainViewModel`.
  - Its fields are the flows' current values and the debouncer's held-back pair
    with its arrival time, updated in place.
  - Its callbacks and its `Tick` method are proved to compute the `CaptureGate`
    functions.
- `Session` (`session.dfy`): the view model in its activity, as runs of events.
  - The events are recognizer results, recognizer errors, clock ticks, and the
    outcome of each capture the activity starts.
  - The activity calls `onPhotoCaptureComplete` only when the photo is saved.
  - The whole-run properties are proved here: a capture needs a stable window, a
    second capture needs a completed save plus the countdown, and a failed save
    closes the gate for good.

The module `Optional` (`option.dfy`) holds the `Option` type that stands for
Java's `Optional` and Kotlin's nullable values.

### Semantics of the flow operators as modelled

- `MutableStateFlow` passes a value on only when it differs from the current one.
  So `combine(_bothOk, _isCameraReady)` hands the debouncer a new pair exactly when
  one of the two flags changes (`SetBothOk`, `SetCameraReady`).
- `sample(100)` of a StateFlow emits, at the end of each period, the value the flow
  holds then, provided the flow emitted during the period. In the first period it
  always has, with its initial value, so both samplers emit at 100 ms. `combine`
  keeps its previous input when nothing is emitted. So at every sampling instant
  (100, 200, ... ms) `_bothOk` becomes `gestureOk && faceOk` of that instant
  (`Sample`).
- `debounce(500)` keeps the latest pair and its arrival time. A newer pair replaces
  it. The pair is released once it has waited 500 ms (`Debounce`).
  - The filter lets only (true, true) through.
  - `onEach` then emits `false` to `_isCameraReady`. That is itself a new pair for
    the debouncer.
- Time 0 is the moment the activity starts collecting `captureEvents`. Because of
  `SharingStarted.WhileSubscribed`, the flows start then. The initial pair
  (false, true) arrives at once.

### Behaviour worth knowing

- A face with no `mouthSmile*` category passes, because `all` over nothing is true.
  - An empty face list also passes (`FaceOkWithoutSmileCategories`).
  - Of these cases without smile data, only missing blendshape data gives `false`.
  - Hands with no labels are skipped by `mapNotNull` (`GestureOkUnlabelledHands`).
- There is no separate armed state, only the 500 ms debounce of the
  `(bothOk, cameraReady)` pair.
- Conditions held continuously fire again 500 ms after each re-arm, because the
  re-arm is itself a new (true, true) pair. What does hold is one capture per ready
  window, and no second capture without a saved photo plus 3000 + 500 ms
  (`Session.NoRefireWithoutCompletion`).
- Every call of `onPhotoCaptureComplete` launches its own untagged re-arm, so the
  gate keeps a list of them.

## Model

| member | source | states |
|---|---|---|
| Conditions.Contains | app/src/main/java/com/example/holisticselfiedemo/MainViewModel.kt:93 | Kotlin's case-sensitive `String.contains`; `ContainsIffOccurs` states its meaning |
| Conditions.FaceOk | app/src/main/java/com/example/holisticselfiedemo/MainViewModel.kt:89-98 | absent blendshape data gives false; present data with no face inspected gives true; `FaceOkMeaning` states the full meaning |
| Conditions.GestureOk | app/src/main/java/com/example/holisticselfiedemo/MainViewModel.kt:108-115 | true only with a positive hand count and some hand present; `GestureOkMeaning` states the full meaning |
| Conditions.ContainsIffOccurs | app/src/main/java/com/example/holisticselfiedemo/MainViewModel.kt:93 | Kotlin's `String.contains` holds iff the pattern occurs at some index of the name |
| Conditions.ShorterNeverContains | app/src/main/java/com/example/holisticselfiedemo/MainViewModel.kt:93 | a name shorter than the pattern never contains it |
| Conditions.Take | app/src/main/java/com/example/holisticselfiedemo/MainViewModel.kt:91 | `take(n)` is the prefix of length min(n, size) |
| Conditions.MouthSmiles | app/src/main/java/com/example/holisticselfiedemo/MainViewModel.kt:92-94 | the filter keeps exactly the categories whose name contains `mouthSmile` |
| Conditions.AllScoresAbove | app/src/main/java/com/example/holisticselfiedemo/MainViewModel.kt:94-96 | true iff every score is strictly above the threshold (vacuously true on none) |
| Conditions.FaceShapesOk | app/src/main/java/com/example/holisticselfiedemo/MainViewModel.kt:92-96 | one face passes iff each of its `mouthSmile` categories scores above the threshold |
| Conditions.AllFacesOk | app/src/main/java/com/example/holisticselfiedemo/MainViewModel.kt:91-97 | true iff every face in the list passes |
| Conditions.FaceOkMeaning | app/src/main/java/com/example/holisticselfiedemo/MainViewModel.kt:89-98 | `faceOk` iff blendshapes are present and, in each of the first FACES_COUNT faces, every `mouthSmile` category scores strictly above the threshold; absent data gives false |
| Conditions.FaceOkIgnoresFacesBeyondCount | app/src/main/java/com/example/holisticselfiedemo/MainViewModel.kt:91 | faces after the first FACES_COUNT never change `faceOk` |
| Conditions.FaceOkWithoutSmileCategories | app/src/main/java/com/example/holisticselfiedemo/MainViewModel.kt:91-97 | an empty face list, or faces with no `mouthSmile` category, give true |
| Conditions.SmileFrameScenario | app/src/main/java/com/example/holisticselfiedemo/MainViewModel.kt:89-98 | a face with `mouthSmileLeft`/`mouthSmileRight` at score s and an unrelated `jawOpen` passes iff s is above the threshold |
| Conditions.TopGestures | app/src/main/java/com/example/holisticselfiedemo/MainViewModel.kt:113 | `mapNotNull { firstOrNull() }` yields exactly the top labels of the hands that have one, no more of them than hands |
| Conditions.AllThumbUp | app/src/main/java/com/example/holisticselfiedemo/MainViewModel.kt:114 | true iff every label's name equals `Thumb_Up` exactly |
| Conditions.GestureOkMeaning | app/src/main/java/com/example/holisticselfiedemo/MainViewModel.kt:108-115 | `gestureOk` iff HANDS_COUNT > 0, some hand is present, and every hand among the first HANDS_COUNT that has labels has `Thumb_Up` as its top label |
| Conditions.GestureOkNeedsAHand | app/src/main/java/com/example/holisticselfiedemo/MainViewModel.kt:110-112 | no hands left after truncation gives false |
| Conditions.GestureOkIgnoresHandsBeyondCount | app/src/main/java/com/example/holisticselfiedemo/MainViewModel.kt:110 | hands after the first HANDS_COUNT never change `gestureOk` |
| Conditions.GestureOkUnlabelledHands | app/src/main/java/com/example/holisticselfiedemo/MainViewModel.kt:112-114 | hands that all have empty label lists give true |
| Conditions.TwoHandsScenario | app/src/main/java/com/example/holisticselfiedemo/MainViewModel.kt:108-115 | two thumbs up pass; a hand whose top label is `Open_Palm` fails even when `Thumb_Up` is its second label |
| CaptureGate.SetFaceOk | app/src/main/java/com/example/holisticselfiedemo/MainViewModel.kt:100 | `_faceOk.tryEmit`: only the latest face condition changes; used by `MainViewModel.OnFaceLandmarkerResults`, whose contract states it |
| CaptureGate.SetGestureOk | app/src/main/java/com/example/holisticselfiedemo/MainViewModel.kt:117 | `_gestureOk.tryEmit`: only the latest gesture condition changes; used by `MainViewModel.OnGestureResults`, whose contract states it |
| CaptureGate.PhotoCaptureComplete | app/src/main/java/com/example/holisticselfiedemo/MainViewModel.kt:121-126 | launches one re-arm due 3000 ms from now; `MainViewModel.OnPhotoCaptureComplete` and `Session.EventKeepsDebouncer` state it |
| CaptureGate.SetCameraReady | app/src/main/java/com/example/holisticselfiedemo/MainViewModel.kt:48-52 | a StateFlow change of the ready flag hands the debouncer a new pair, a repeated value does not; stated by `ExpireRearmsStep` and `DebounceStepHolds` |
| CaptureGate.SetBothOk | app/src/main/java/com/example/holisticselfiedemo/MainViewModel.kt:41-46 | a changed `_bothOk` hands the debouncer a new pair, a repeated value does not; stated by `SampleStepHolds` |
| CaptureGate.ExpireRearms | app/src/main/java/com/example/holisticselfiedemo/MainViewModel.kt:121-126 | the due re-arm coroutines emit `true` to the ready flag; `ExpireRearmsStep` states its effect |
| CaptureGate.Sample | app/src/main/java/com/example/holisticselfiedemo/MainViewModel.kt:41-46 | both samplers pass on the current conditions at each 100 ms instant; `SampleStepHolds` states its effect |
| CaptureGate.Debounce | app/src/main/java/com/example/holisticselfiedemo/MainViewModel.kt:52-55 | debounce(500), the (true, true) filter and `onEach { emit(false) }`; `DebounceStepHolds` states its effect |
| CaptureGate.Tick | app/src/main/java/com/example/holisticselfiedemo/MainViewModel.kt:40-57 | one millisecond of the pipeline; `TickFires`, `TickCameraReady`, `TickSamples`, `TickRestartsWait`, `TickConservesTokens` and `TickPreservesValid` state its meaning |
| CaptureGate.Init | app/src/main/java/com/example/holisticselfiedemo/MainViewModel.kt:34-48 | the initial state is consistent: faceOk, gestureOk and bothOk are false, the camera is ready, no re-arm is launched |
| CaptureGate.AnyDue | app/src/main/java/com/example/holisticselfiedemo/MainViewModel.kt:122-123 | true iff some launched re-arm's delay has run out |
| CaptureGate.Later | app/src/main/java/com/example/holisticselfiedemo/MainViewModel.kt:122-123 | keeps exactly the re-arms still waiting, and at least one fewer when one fell due |
| CaptureGate.ExpireRearmsStep | app/src/main/java/com/example/holisticselfiedemo/MainViewModel.kt:121-126 | re-arm expiry sets the camera ready iff a re-arm fell due, retires the due ones, spends one per opening, and restarts the debouncer exactly when the pair changes |
| CaptureGate.SampleStepHolds | app/src/main/java/com/example/holisticselfiedemo/MainViewModel.kt:41-46 | at a sampling instant bothOk becomes gestureOk && faceOk, otherwise nothing changes; a changed pair restarts the debouncer |
| CaptureGate.DebounceStepHolds | app/src/main/java/com/example/holisticselfiedemo/MainViewModel.kt:51-55 | the debouncer fires iff it holds (true, true) for 500 ms; firing closes the camera and hands on (bothOk, false); otherwise it only releases an old pair |
| CaptureGate.TickTicks | app/src/main/java/com/example/holisticselfiedemo/MainViewModel.kt:40-57 | a tick of a consistent state is its three stages, each obeying its relation |
| CaptureGate.TickPreservesValid | app/src/main/java/com/example/holisticselfiedemo/MainViewModel.kt:40-57 | a tick keeps the debouncer holding the current pair from the past, and every re-arm in the future |
| CaptureGate.TickFires | app/src/main/java/com/example/holisticselfiedemo/MainViewModel.kt:52-55 | a capture fires iff (true, true) has waited 500 ms and this instant's sample keeps it; firing clears ready and restarts the wait on (true, false) |
| CaptureGate.TickCameraReady | app/src/main/java/com/example/holisticselfiedemo/MainViewModel.kt:55 | after a tick the camera is ready iff it was, or a re-arm fell due, and no capture fired |
| CaptureGate.TickSamples | app/src/main/java/com/example/holisticselfiedemo/MainViewModel.kt:41-46 | the clock advances by 1 ms, the conditions are kept, bothOk is refreshed only at a 100 ms instant, and due re-arms are retired |
| CaptureGate.TickRestartsWait | app/src/main/java/com/example/holisticselfiedemo/MainViewModel.kt:52-53 | any change of the pair restarts the 500 ms wait now; a pair waiting from before the tick is unchanged and does not fire |
| CaptureGate.TickConservesTokens | app/src/main/java/com/example/holisticselfiedemo/MainViewModel.kt:55 | a tick makes the camera ready only by spending a due re-arm, and fires only by spending readiness |
| ViewModel.MainViewModel.constructor | app/src/main/java/com/example/holisticselfiedemo/MainViewModel.kt:34-48 | the fields start as the initial gate state: conditions false, camera ready |
| ViewModel.MainViewModel.OnFaceLandmarkerError | app/src/main/java/com/example/holisticselfiedemo/MainViewModel.kt:85-87 | an error leaves every field unchanged |
| ViewModel.MainViewModel.OnFaceLandmarkerResults | app/src/main/java/com/example/holisticselfiedemo/MainViewModel.kt:89-100 | faceOk becomes the face condition of the result; nothing else changes |
| ViewModel.MainViewModel.OnGestureError | app/src/main/java/com/example/holisticselfiedemo/MainViewModel.kt:104-106 | an error leaves every field unchanged |
| ViewModel.MainViewModel.OnGestureResults | app/src/main/java/com/example/holisticselfiedemo/MainViewModel.kt:108-117 | gestureOk becomes the gesture condition of the first result; nothing else changes |
| ViewModel.MainViewModel.OnPhotoCaptureComplete | app/src/main/java/com/example/holisticselfiedemo/MainViewModel.kt:121-126 | a re-arm due 3000 ms from now is launched; nothing else changes |
| ViewModel.MainViewModel.Tick | app/src/main/java/com/example/holisticselfiedemo/MainViewModel.kt:40-57 | one millisecond of the pipeline, in place: the new fields and the capture flag are those of `CaptureGate.Tick`, and the state stays consistent |
| ViewModel.MainViewModel.AdvanceClock | app/src/main/java/com/example/holisticselfiedemo/MainViewModel.kt:123 | only the clock moves, by 1 ms |
| ViewModel.MainViewModel.RunRearms | app/src/main/java/com/example/holisticselfiedemo/MainViewModel.kt:122-124 | the fields become `CaptureGate.ExpireRearms` of the old ones |
| ViewModel.MainViewModel.RunSamplers | app/src/main/java/com/example/holisticselfiedemo/MainViewModel.kt:41-46 | the fields become `CaptureGate.Sample` of the old ones |
| ViewModel.MainViewModel.RunDebouncer | app/src/main/java/com/example/holisticselfiedemo/MainViewModel.kt:52-55 | the fields and the capture flag become `CaptureGate.Debounce` of the old fields |
| Session.Step | app/src/main/java/com/example/holisticselfiedemo/MainActivity.kt:101-105 | one event: a capture event starts a capture, a save calls `onPhotoCaptureComplete`, a failure (lines 258-260) only ends the capture; `StepInv` and `EventKeepsDebouncer` state its effect |
| Session.EventKeepsDebouncer | app/src/main/java/com/example/holisticselfiedemo/MainViewModel.kt:85-126 | callbacks never move the clock or touch the debouncer; only a save of a started capture launches a re-arm |
| Session.StepInv | app/src/main/java/com/example/holisticselfiedemo/MainActivity.kt:101-105 | every step keeps the gate consistent and at most one of: camera ready, a re-arm launched, a capture in progress |
| Session.RunInv | app/src/main/java/com/example/holisticselfiedemo/MainActivity.kt:101-105 | every state of a run is consistent |
| Session.ClockMonotone | app/src/main/java/com/example/holisticselfiedemo/MainViewModel.kt:40-57 | the clock never runs backwards along a run |
| Session.WaitingSince | app/src/main/java/com/example/holisticselfiedemo/MainViewModel.kt:53 | a pair waiting in the debouncer since p was waiting, unchanged, at every earlier step from p on |
| Session.FireRequiresStableWindow | app/src/main/java/com/example/holisticselfiedemo/MainViewModel.kt:52-54 | a capture fires only after the pair was (true, true) at every step of the preceding 500 ms |
| Session.AfterFire | app/src/main/java/com/example/holisticselfiedemo/MainViewModel.kt:55 | right after a capture the camera is not ready and no re-arm is outstanding |
| Session.SavedByLater | app/src/main/java/com/example/holisticselfiedemo/MainActivity.kt:262-266 | a save reported in time for a deadline is in time for any later one |
| Session.OpenedBySaveTick | app/src/main/java/com/example/holisticselfiedemo/MainViewModel.kt:121-126 | a tick opens the camera, and restarts a wait while it is open, only at or after a re-arm launched by a save |
| Session.OpenedBySaveEvent | app/src/main/java/com/example/holisticselfiedemo/MainActivity.kt:262-266 | the only new re-arm is the one a reported save launches, due 3000 ms after the report |
| Session.OpenedBySaveFrom | app/src/main/java/com/example/holisticselfiedemo/MainViewModel.kt:121-126 | after a capture, every re-arm, every ready camera and every wait on an open camera comes from a save reported since |
| Session.NoRefireWithoutCompletion | app/src/main/java/com/example/holisticselfiedemo/MainViewModel.kt:121-126 | between two captures a photo was saved and `onPhotoCaptureComplete` called, at least 3000 + 500 ms before the second capture |
| Session.ExhaustedStaysExhausted | app/src/main/java/com/example/holisticselfiedemo/MainActivity.kt:258-260 | with no ready camera, re-arm or capture in progress, no step fires or restores any |
| Session.ExhaustedFrom | app/src/main/java/com/example/holisticselfiedemo/MainActivity.kt:258-260 | that exhausted state lasts for the rest of the run |
| Session.FailedCaptureStopsFiring | app/src/main/java/com/example/holisticselfiedemo/MainActivity.kt:258-266 | once a started capture fails, the camera is never ready again and no capture ever fires |

## Left out

- `setupHelper`, `shutdownHelper` and `recognizeLiveStream`: they only forward to
  `HolisticRecognizerHelper`. MediaPipe inference is foreign code, and
  HolisticRecognizerHelper is not part of this model.
- FACES_COUNT, HANDS_COUNT and DEFAULT_FACE_SHAPE_SCORE_THRESHOLD are defined in
  HolisticRecognizerHelper. They are parameters of the model.
- `uiEvents` and the `tryEmit` calls that fill it are display-only and not modelled.
- Scores are floats in the source and `real` here. They are only compared with `>`.
- Coroutine scheduling is left out.
  - Time is a 1 ms integer clock.
  - Timers due at the same instant run in a fixed order: re-arms, then the two
    samplers (on one shared clock), then the debouncer.
  - Callbacks run between ticks.
  - Real dispatch timing, and races between callbacks and timers, are not modelled.
- The activity is reduced to one fact: per capture event it starts one capture. That
  capture ends in a save, which calls `onPhotoCaptureComplete`, or in a failure,
  which does not.
  - A missing `imageCapture` counts as a failure.
  - Camera binding, permissions, MediaStore writes, overlays and the flash animation
    are not modelled.
- The samplers' buffers are not kept as state. At every sampling instant a
  sampler's buffer equals the current condition, so `Sample` reads the condition
  directly.
- A session is one uninterrupted collection of `captureEvents`. On pause and resume,
  `repeatOnLifecycle(RESUMED)` with `WhileSubscribed()` cancels and restarts the
  pipeline.
  - On a restart the debouncer's pending pair and the samplers' phase are lost.
  - The conditions, `_bothOk`, `_isCameraReady` and launched re-arms persist.
  - That restart is not modelled.
- Frame throttling is not modelled. It is CameraX's keep-only-latest strategy and a
  single-threaded dispatcher, with no code of this repository behind it.
- ViewModel.MainViewModel.OnGestureResults: it requires a non-empty result list.
  The source's `first()` throws on an empty one, and the exception is not modelled.
- Session.GestureResult carries the gestures of the first result only. The
  non-empty requirement above stays with the class method.
