/**
 * The capture gate of the selfie view model, as a discrete-time state machine
 * on a millisecond clock.  The view model builds it from coroutine flows:
 *
 *   _bothOk        = combine(gestureOk.sample(100), faceOk.sample(100)) { g && f }, a StateFlow
 *   captureEvents  = combine(_bothOk, _isCameraReady) { pair }
 *                      .debounce(500).filter { both true }.onEach { ready := false }
 *
 * A StateFlow only emits when its value changes, so `combine` hands the
 * debouncer a new (bothOk, cameraReady) pair exactly when one of the two
 * changes; the debouncer keeps the latest pair and lets it through once
 * 500 ms pass without a newer one.  `onPhotoCaptureComplete` launches a
 * coroutine that sets the camera ready again 3000 ms later; each launch is
 * one entry of `rearms`.
 *
 * The functions here are the specification; the class MainViewModel
 * implements them with fields updated in place.
 */
module CaptureGate {
  import opened Optional

  const SAMPLING_INTERVAL: int := 100
  const STABILITY_THRESHOLD: int := 500
  const CAPTURE_COUNTDOWN: int := 3000

  /** The pair that `combine(_bothOk, _isCameraReady)` emits. */
  datatype Pair = Pair(bothOk: bool, cameraReady: bool)

  const BOTH_READY := Pair(true, true)

  datatype Gate = Gate(
    now: int,                  // milliseconds since the flows were first collected
    faceOk: bool,              // _faceOk, the latest face condition
    gestureOk: bool,           // _gestureOk, the latest gesture condition
    bothOk: bool,              // _bothOk, the conjunction as last sampled
    cameraReady: bool,         // _isCameraReady
    pending: Option<Pair>,     // the pair the debouncer holds back, if any
    pendingSince: int,         // when that pair arrived
    rearms: seq<int>)          // deadlines of the launched re-arm coroutines
  {
    /** The pair currently seen by the debouncer's upstream. */
    function Fused(): Pair {
      Pair(bothOk, cameraReady)
    }
  }

  /** The flows' wiring: what the debouncer holds is the current pair, and it arrived in the past. */
  predicate Wired(g: Gate) {
    && g.now >= 0
    && (g.pending.Some? ==> g.pending.value == g.Fused() && g.pendingSince <= g.now)
  }

  /** A consistent state: wired, and every launched re-arm still lies in the future. */
  predicate Valid(g: Gate) {
    Wired(g) && forall d :: d in g.rearms ==> d > g.now
  }

  /**
   * The state when the flows are first collected: both conditions false,
   * camera ready, and the initial pair (false, true) waiting in the debouncer.
   */
  function Init(): (g: Gate)
    ensures Valid(g)
    ensures !g.faceOk && !g.gestureOk && !g.bothOk && g.cameraReady && g.rearms == []
  {
    Gate(0, false, false, false, true, Some(Pair(false, true)), 0, [])
  }

  // ---------------------------------------------------------------------
  // Events from the recognizer and the activity

  /** `_faceOk.tryEmit(v)`: only the latest face condition changes. */
  function SetFaceOk(g: Gate, v: bool): Gate {
    g.(faceOk := v)
  }

  /** `_gestureOk.tryEmit(v)`: only the latest gesture condition changes. */
  function SetGestureOk(g: Gate, v: bool): Gate {
    g.(gestureOk := v)
  }

  /** `onPhotoCaptureComplete`: launch a re-arm due CAPTURE_COUNTDOWN ms from now. */
  function PhotoCaptureComplete(g: Gate): Gate {
    g.(rearms := g.rearms + [g.now + CAPTURE_COUNTDOWN])
  }

  // ---------------------------------------------------------------------
  // One millisecond of the clock

  datatype Ticked = Ticked(gate: Gate, fired: bool)

  /** The debouncer receives a new pair from `combine`. */
  function Arrive(g: Gate, p: Pair): Gate {
    g.(pending := Some(p), pendingSince := g.now)
  }

  /** `_isCameraReady.emit(v)`: a StateFlow passes the value on only when it changes. */
  function SetCameraReady(g: Gate, v: bool): Gate {
    if v == g.cameraReady then g else Arrive(g.(cameraReady := v), Pair(g.bothOk, v))
  }

  /** `_bothOk` takes a new value, again passed on only when it changes. */
  function SetBothOk(g: Gate, v: bool): Gate {
    if v == g.bothOk then g else Arrive(g.(bothOk := v), Pair(v, g.cameraReady))
  }

  /** Some deadline has been reached at time `t`. */
  function AnyDue(ds: seq<int>, t: int): (r: bool)
    ensures r <==> exists d :: d in ds && d <= t
  {
    if ds == [] then false
    else if ds[0] <= t then
      assert ds[0] in ds;
      true
    else
      assert forall d :: d in ds <==> d == ds[0] || d in ds[1..];
      AnyDue(ds[1..], t)
  }

  /** The deadlines still in the future at time `t`. */
  function Later(ds: seq<int>, t: int): (r: seq<int>)
    ensures forall d :: d in r <==> d in ds && d > t
    ensures |r| <= |ds| && (AnyDue(ds, t) ==> |r| < |ds|)
  {
    if ds == [] then []
    else
      assert ds == [ds[0]] + ds[1..];
      (if ds[0] > t then [ds[0]] else []) + Later(ds[1..], t)
  }

  /** Re-arm coroutines whose delay has run out set the camera ready. */
  function ExpireRearms(g: Gate): Gate {
    if AnyDue(g.rearms, g.now) then SetCameraReady(g.(rearms := Later(g.rearms, g.now)), true)
    else g
  }

  /** The samplers' instants: every SAMPLING_INTERVAL ms from the start of collection. */
  predicate IsSamplingInstant(t: int) {
    t % SAMPLING_INTERVAL == 0
  }

  /** At a sampling instant both samplers pass on the latest conditions, and `combine` ANDs them. */
  function Sample(g: Gate): Gate {
    if IsSamplingInstant(g.now) then SetBothOk(g, g.gestureOk && g.faceOk) else g
  }

  /**
   * The debouncer releases a pair that has waited STABILITY_THRESHOLD ms; the
   * filter lets only (true, true) through, and `onEach` then closes the camera.
   */
  function Debounce(g: Gate): Ticked {
    if g.pending.Some? && g.now - g.pendingSince >= STABILITY_THRESHOLD then
      var released := g.(pending := None);
      if g.pending.value == BOTH_READY then Ticked(SetCameraReady(released, false), true)
      else Ticked(released, false)
    else Ticked(g, false)
  }

  /** The clock advances by one millisecond and the timers due at the new instant run. */
  function Tick(g: Gate): Ticked {
    Debounce(Sample(ExpireRearms(g.(now := g.now + 1))))
  }

  // ---------------------------------------------------------------------
  // Each stage of a tick, as a relation between the states before and after

  /** `y` follows `x` within one instant, and the debouncer restarted exactly if the pair changed. */
  ghost predicate KeepsOrRestarts(x: Gate, y: Gate) {
    && y.now == x.now
    && (y.Fused() != x.Fused() ==> y.pending == Some(y.Fused()) && y.pendingSince == y.now)
    && (y.Fused() == x.Fused() ==> y.pending == x.pending && y.pendingSince == x.pendingSince)
  }

  /** Re-arm expiry drops the due re-arms and opens the camera if one fell due. */
  ghost predicate ExpireStep(x: Gate, r: Gate) {
    && r.faceOk == x.faceOk && r.gestureOk == x.gestureOk && r.bothOk == x.bothOk
    && r.cameraReady == (x.cameraReady || (exists d :: d in x.rearms && d <= x.now))
    && (forall d :: d in r.rearms <==> d in x.rearms && d > x.now)
    && |r.rearms| + (if r.cameraReady && !x.cameraReady then 1 else 0) <= |x.rearms|
    && KeepsOrRestarts(x, r)
  }

  /** Sampling refreshes bothOk at a sampling instant and touches nothing else. */
  ghost predicate SampleStep(x: Gate, r: Gate) {
    && r.faceOk == x.faceOk && r.gestureOk == x.gestureOk
    && r.cameraReady == x.cameraReady && r.rearms == x.rearms
    && r.bothOk == (if IsSamplingInstant(x.now) then x.gestureOk && x.faceOk else x.bothOk)
    && KeepsOrRestarts(x, r)
  }

  /** The debouncer fires on a (true, true) pair that has waited long enough; only that closes the camera. */
  ghost predicate DebounceStep(x: Gate, t: Ticked) {
    && t.gate.now == x.now && t.gate.faceOk == x.faceOk && t.gate.gestureOk == x.gestureOk
    && t.gate.bothOk == x.bothOk && t.gate.rearms == x.rearms
    && (t.fired <==> x.pending == Some(BOTH_READY) && x.now - x.pendingSince >= STABILITY_THRESHOLD)
    && t.gate.cameraReady == (x.cameraReady && !t.fired)
    && (t.fired ==> t.gate.pending == Some(Pair(x.bothOk, false)) && t.gate.pendingSince == x.now)
    && (!t.fired ==> t.gate.pendingSince == x.pendingSince)
    && (!t.fired ==>
          t.gate.pending == if x.now - x.pendingSince >= STABILITY_THRESHOLD then None else x.pending)
  }

  lemma ExpireRearmsStep(x: Gate)
    ensures ExpireStep(x, ExpireRearms(x))
  {
  }

  lemma SampleStepHolds(x: Gate)
    ensures SampleStep(x, Sample(x))
  {
  }

  lemma DebounceStepHolds(x: Gate)
    requires x.pending.Some? ==> x.pending.value == x.Fused()
    ensures DebounceStep(x, Debounce(x))
  {
  }

  /** A tick is its three stages, run one after the other at the advanced instant. */
  lemma TickStages(g: Gate, advanced: Gate, expired: Gate, sampled: Gate)
    requires advanced == g.(now := g.now + 1)
    requires expired == ExpireRearms(advanced) && sampled == Sample(expired)
    ensures Tick(g) == Debounce(sampled)
  {
  }

  /** A tick of a consistent state, described by its stages. */
  ghost predicate Ticks(g: Gate, expired: Gate, sampled: Gate, t: Ticked) {
    && ExpireStep(g.(now := g.now + 1), expired)
    && SampleStep(expired, sampled)
    && DebounceStep(sampled, t)
  }

  /** Every tick of a consistent state is described by its stages. */
  lemma TickTicks(g: Gate) returns (expired: Gate, sampled: Gate)
    requires Valid(g)
    ensures Ticks(g, expired, sampled, Tick(g))
  {
    var advanced := g.(now := g.now + 1);
    expired := ExpireRearms(advanced);
    sampled := Sample(expired);
    ExpireRearmsStep(advanced);
    SampleStepHolds(expired);
    assert Wired(sampled) by {
      assert Wired(advanced);
    }
    DebounceStepHolds(sampled);
    TickStages(g, advanced, expired, sampled);
  }

  // ---------------------------------------------------------------------
  // What a tick does, proved from the stage relations alone
  //
  // Each fact is proved here once about arbitrary states related by the three
  // stage relations, and then restated about Tick itself below.  Proving the
  // Tick forms directly makes the solver unfold all three stage functions and
  // case-split on them together, which is several times as expensive.

  /** A stage keeps the wiring when it keeps the debouncer's pair or restarts its wait. */
  lemma KeepsOrRestartsWired(x: Gate, y: Gate)
    requires Wired(x) && KeepsOrRestarts(x, y)
    ensures Wired(y)
  {
  }

  lemma StagesWired(g: Gate, e: Gate, s: Gate, t: Ticked)
    requires Valid(g) && Ticks(g, e, s, t)
    ensures Wired(e) && Wired(s) && s.now == g.now + 1
  {
    KeepsOrRestartsWired(g.(now := g.now + 1), e);
    KeepsOrRestartsWired(e, s);
  }

  lemma TicksValid(g: Gate, e: Gate, s: Gate, t: Ticked)
    requires Valid(g) && Ticks(g, e, s, t)
    ensures Valid(t.gate)
  {
    StagesWired(g, e, s, t);
    assert forall d :: d in t.gate.rearms ==> d > t.gate.now by {
      assert t.gate.rearms == e.rearms;
    }
  }

  lemma TicksFire(g: Gate, e: Gate, s: Gate, t: Ticked)
    requires Valid(g) && Ticks(g, e, s, t)
    ensures t.fired <==>
      && g.pending == Some(BOTH_READY)
      && g.now + 1 - g.pendingSince >= STABILITY_THRESHOLD
      && (IsSamplingInstant(g.now + 1) ==> g.gestureOk && g.faceOk)
    ensures t.fired ==>
      && !t.gate.cameraReady
      && t.gate.pending == Some(Pair(true, false))
      && t.gate.pendingSince == g.now + 1
  {
    StagesWired(g, e, s, t);
    var a := g.(now := g.now + 1);
    if t.fired {
      // the pair waited since before this instant, so neither stage changed it
      assert s.pendingSince < s.now;
      assert s.Fused() == e.Fused() && e.Fused() == a.Fused();
    }
  }

  lemma TicksCameraReady(g: Gate, e: Gate, s: Gate, t: Ticked)
    requires Valid(g) && Ticks(g, e, s, t)
    ensures t.gate.cameraReady <==>
      (g.cameraReady || exists d :: d in g.rearms && d <= g.now + 1) && !t.fired
  {
  }

  lemma TicksSample(g: Gate, e: Gate, s: Gate, t: Ticked)
    requires Valid(g) && Ticks(g, e, s, t)
    ensures t.gate.now == g.now + 1
    ensures t.gate.faceOk == g.faceOk && t.gate.gestureOk == g.gestureOk
    ensures t.gate.bothOk == if IsSamplingInstant(g.now + 1) then g.gestureOk && g.faceOk else g.bothOk
    ensures forall d :: d in t.gate.rearms <==> d in g.rearms && d > g.now + 1
  {
  }

  lemma TicksRestartWait(g: Gate, e: Gate, s: Gate, t: Ticked)
    requires Valid(g) && Ticks(g, e, s, t)
    ensures t.gate.Fused() != g.Fused() ==>
      t.gate.pending == Some(t.gate.Fused()) && t.gate.pendingSince == g.now + 1
    ensures t.gate.pending.Some? && t.gate.pendingSince <= g.now ==>
      && t.gate.pending == g.pending && t.gate.pendingSince == g.pendingSince
      && t.gate.Fused() == g.Fused() && !t.fired
  {
    StagesWired(g, e, s, t);
    var a := g.(now := g.now + 1);
    if !t.fired && s.Fused() == a.Fused() {
      assert t.gate.Fused() == g.Fused();
    }
  }

  lemma TicksConserveTokens(g: Gate, e: Gate, s: Gate, t: Ticked)
    requires Valid(g) && Ticks(g, e, s, t)
    ensures (if t.gate.cameraReady then 1 else 0) + |t.gate.rearms| + (if t.fired then 1 else 0)
      <= (if g.cameraReady then 1 else 0) + |g.rearms|
  {
    TicksFire(g, e, s, t);
  }

  // The same properties, of Tick itself

  /** A tick keeps the state consistent. */
  lemma TickPreservesValid(g: Gate)
    requires Valid(g)
    ensures Valid(Tick(g).gate)
  {
    var e, s := TickTicks(g);
    TicksValid(g, e, s, Tick(g));
  }

  /**
   * A capture fires exactly when (true, true) has waited in the debouncer for
   * STABILITY_THRESHOLD ms and this instant's sample does not break it; firing
   * closes the camera and hands the debouncer the pair (true, false).
   */
  lemma TickFires(g: Gate)
    requires Valid(g)
    ensures Tick(g).fired <==>
      && g.pending == Some(BOTH_READY)
      && g.now + 1 - g.pendingSince >= STABILITY_THRESHOLD
      && (IsSamplingInstant(g.now + 1) ==> g.gestureOk && g.faceOk)
    ensures Tick(g).fired ==>
      && !Tick(g).gate.cameraReady
      && Tick(g).gate.pending == Some(Pair(true, false))
      && Tick(g).gate.pendingSince == g.now + 1
  {
    var e, s := TickTicks(g);
    TicksFire(g, e, s, Tick(g));
  }

  /** The camera is ready after a tick iff it was, or a re-arm fell due, and no capture fired. */
  lemma TickCameraReady(g: Gate)
    requires Valid(g)
    ensures Tick(g).gate.cameraReady <==>
      (g.cameraReady || exists d :: d in g.rearms && d <= g.now + 1) && !Tick(g).fired
  {
    var e, s := TickTicks(g);
    TicksCameraReady(g, e, s, Tick(g));
  }

  /** A tick advances the clock, samples at sampling instants only, and retires the re-arms that fell due. */
  lemma TickSamples(g: Gate)
    requires Valid(g)
    ensures Tick(g).gate.now == g.now + 1
    ensures Tick(g).gate.faceOk == g.faceOk && Tick(g).gate.gestureOk == g.gestureOk
    ensures Tick(g).gate.bothOk == if IsSamplingInstant(g.now + 1) then g.gestureOk && g.faceOk else g.bothOk
    ensures forall d :: d in Tick(g).gate.rearms <==> d in g.rearms && d > g.now + 1
  {
    var e, s := TickTicks(g);
    TicksSample(g, e, s, Tick(g));
  }

  /**
   * A new pair restarts the debouncer's wait at the new instant; a pair that
   * was already waiting before the tick is the same pair, unchanged.
   */
  lemma TickRestartsWait(g: Gate)
    requires Valid(g)
    ensures Tick(g).gate.Fused() != g.Fused() ==>
      Tick(g).gate.pending == Some(Tick(g).gate.Fused()) && Tick(g).gate.pendingSince == g.now + 1
    ensures Tick(g).gate.pending.Some? && Tick(g).gate.pendingSince <= g.now ==>
      && Tick(g).gate.pending == g.pending && Tick(g).gate.pendingSince == g.pendingSince
      && Tick(g).gate.Fused() == g.Fused() && !Tick(g).fired
  {
    var e, s := TickTicks(g);
    TicksRestartWait(g, e, s, Tick(g));
  }

  /**
   * A tick creates no readiness from nothing: a re-arm that falls due turns
   * into readiness, and readiness into a capture, one for one.
   */
  lemma TickConservesTokens(g: Gate)
    requires Valid(g)
    ensures (if Tick(g).gate.cameraReady then 1 else 0) + |Tick(g).gate.rearms| + (if Tick(g).fired then 1 else 0)
      <= (if g.cameraReady then 1 else 0) + |g.rearms|
  {
    var e, s := TickTicks(g);
    TicksConserveTokens(g, e, s, Tick(g));
  }
}
