/** One reel of the slot machine: a horizontal symbol strip whose offset `x`
    advances at a constant speed while the reel spins, wraps to the left of the
    viewport once it has scrolled past the right edge, decays geometrically once
    the reel has been told to stop, and snaps to rest when it comes within a
    small band around offset 0.

    The reel reads four values from its environment (the viewport width, the
    strip width and two game constants); they are gathered in `Config`, which
    `Update` and `StartSpin` take as a parameter. Offsets and speeds are `real`: floating-point rounding is
    not modelled. */
module Reel {

  /** Half-width of the band around offset 0 in which a slowing reel snaps to rest. */
  const SnappingRange: real := 25.0

  /** The reel's environment: `window.innerWidth`, the strip's own rendered width,
      the start speed and the per-frame decay factor. */
  datatype Config = Config(viewportWidth: real, stripWidth: real, startSpeed: real, slowdownRate: real)

  /** The shape of the values the game is configured with: positive sizes and
      speed, and a decay factor strictly between 0 and 1. */
  predicate ValidConfig(cfg: Config) {
    && cfg.viewportWidth > 0.0
    && cfg.stripWidth > 0.0
    && cfg.startSpeed > 0.0
    && 0.0 < cfg.slowdownRate < 1.0
  }

  /** Motion state of a reel. `spinCount` counts wrap-arounds and is never reset. */
  datatype State = State(x: real, speed: real, isSpinning: bool, spinCount: nat)

  /** A freshly constructed reel: at offset 0, not moving, never wrapped. */
  function Initial(): (r: State)
    ensures Idle(r) && r.x == 0.0 && r.spinCount == 0
  {
    State(0.0, 0.0, false, 0)
  }

  /** The state in which `Update` returns at once. */
  predicate Idle(r: State) {
    !r.isSpinning && r.speed == 0.0
  }

  /** True when an offset lies in the snap band [-SnappingRange, SnappingRange]. */
  predicate InSnapBand(x: real) {
    -SnappingRange <= x <= SnappingRange
  }

  /** One frame's deceleration of a stopping reel: the speed is scaled by the
      slowdown rate, so a positive speed stays positive and strictly drops. */
  function Decay(speed: real, rate: real): (s: real)
    ensures speed > 0.0 && 0.0 < rate < 1.0 ==> 0.0 < s < speed
    ensures speed == 0.0 ==> s == 0.0
  {
    speed * rate
  }

  /** One animation frame of length `delta`. */
  function Update(cfg: Config, r: State, delta: real): (r': State)
    ensures r'.isSpinning == r.isSpinning
    ensures r'.spinCount == r.spinCount || r'.spinCount == r.spinCount + 1
    ensures r.isSpinning ==> r'.speed == r.speed
    ensures r'.speed == r.speed || r'.speed == 0.0 || r'.speed == Decay(r.speed, cfg.slowdownRate)
  {
    if Idle(r) then r
    else
      var advanced := r.x + delta * r.speed;
      var wraps := advanced > cfg.viewportWidth;
      var x := if wraps then -cfg.stripWidth else advanced;
      var count := if wraps then r.spinCount + 1 else r.spinCount;
      if !r.isSpinning && r.speed > 0.0 && count > 0 then
        if InSnapBand(x) then State(0.0, 0.0, false, count)
        else State(x, Decay(r.speed, cfg.slowdownRate), false, count)
      else
        State(x, r.speed, r.isSpinning, count)
  }

  /** Sets the reel spinning at the start speed; offset and wrap count are kept. */
  function StartSpin(cfg: Config, r: State): (r': State)
    ensures r'.isSpinning && r'.speed == cfg.startSpeed
    ensures r'.x == r.x && r'.spinCount == r.spinCount
  {
    r.(isSpinning := true, speed := cfg.startSpeed)
  }

  /** Clears the spinning flag only; deceleration happens in later updates. */
  function StopSpin(r: State): (r': State)
    ensures !r'.isSpinning
    ensures r'.x == r.x && r'.speed == r.speed && r'.spinCount == r.spinCount
  {
    r.(isSpinning := false)
  }

  /** A run of consecutive frames, one per delta, earliest first. */
  function Frames(cfg: Config, r: State, deltas: seq<real>): State
    decreases |deltas|
  {
    if |deltas| == 0 then r else Frames(cfg, Update(cfg, r, deltas[0]), deltas[1..])
  }

  // ---------------------------------------------------------------------------
  // Single-frame properties of Update

  /** An idle reel is left exactly as it is, whatever the frame length. */
  lemma UpdateIdleIsNoop(cfg: Config, r: State, delta: real)
    requires Idle(r)
    ensures Update(cfg, r, delta) == r
  {
  }

  /** A moving reel that does not wrap moves by exactly `delta * speed`, except
      that a stopped reel that has wrapped and lands in the snap band snaps to
      rest instead (`UpdateSnaps`); so with positive speed and delta the offset
      strictly grows unless the reel snapped. */
  lemma UpdateAdvances(cfg: Config, r: State, delta: real)
    requires r.speed > 0.0 && delta > 0.0
    requires r.x + delta * r.speed <= cfg.viewportWidth
    ensures Update(cfg, r, delta).spinCount == r.spinCount
    ensures Update(cfg, r, delta).x > r.x
         || (Update(cfg, r, delta).x == 0.0 && Update(cfg, r, delta).speed == 0.0)
    ensures r.isSpinning ==> Update(cfg, r, delta).x == r.x + delta * r.speed > r.x
    ensures !InSnapBand(r.x + delta * r.speed) ==> Update(cfg, r, delta).x == r.x + delta * r.speed
    ensures r.isSpinning || r.spinCount == 0 ==> Update(cfg, r, delta).x == r.x + delta * r.speed
  {
  }

  /** The wrap count goes up exactly when a moving reel's advanced offset passes
      the viewport width; the strip then restarts at `-stripWidth`, except that a
      strip narrower than the snap band may snap to 0 in the same frame. */
  lemma UpdateWraps(cfg: Config, r: State, delta: real)
    ensures var r' := Update(cfg, r, delta);
      r'.spinCount == r.spinCount + 1 <==> !Idle(r) && r.x + delta * r.speed > cfg.viewportWidth
    ensures var r' := Update(cfg, r, delta);
      r'.spinCount == r.spinCount + 1 ==> r'.x == -cfg.stripWidth || (InSnapBand(-cfg.stripWidth) && r'.x == 0.0)
    ensures var r' := Update(cfg, r, delta);
      r'.spinCount == r.spinCount + 1 && cfg.stripWidth > SnappingRange ==> r'.x == -cfg.stripWidth
  {
  }

  /** The speed changes only on a stopped, moving reel that has wrapped at least
      once (counting a wrap in this very frame); it then either decays by the
      slowdown rate, staying positive, or drops to exactly 0 by snapping. */
  lemma UpdateDecays(cfg: Config, r: State, delta: real)
    requires 0.0 < cfg.slowdownRate < 1.0
    ensures var r' := Update(cfg, r, delta);
      r'.speed != r.speed <==> !r.isSpinning && r.speed > 0.0 && r'.spinCount > 0
    ensures var r' := Update(cfg, r, delta);
      r'.speed != r.speed ==> r'.speed == 0.0 || 0.0 < r'.speed == Decay(r.speed, cfg.slowdownRate) < r.speed
    ensures r.speed >= 0.0 ==> Update(cfg, r, delta).speed >= 0.0
  {
    var advanced := r.x + delta * r.speed;
    var wraps := advanced > cfg.viewportWidth;
    var x := if wraps then -cfg.stripWidth else advanced;
    var count := if wraps then r.spinCount + 1 else r.spinCount;
    if Idle(r) {
      assert Update(cfg, r, delta) == r;
    } else if !r.isSpinning && r.speed > 0.0 && count > 0 {
      if InSnapBand(x) {
        assert Update(cfg, r, delta) == State(0.0, 0.0, false, count);
      } else {
        assert Update(cfg, r, delta) == State(x, Decay(r.speed, cfg.slowdownRate), false, count);
      }
    } else {
      assert Update(cfg, r, delta) == State(x, r.speed, r.isSpinning, count);
    }
  }

  /** A stopped reel that has already wrapped and whose advance, without
      wrapping, lands in the snap band ends exactly at rest. */
  lemma UpdateSnaps(cfg: Config, r: State, delta: real)
    requires !r.isSpinning && r.speed > 0.0 && r.spinCount > 0
    requires r.x + delta * r.speed <= cfg.viewportWidth
    requires InSnapBand(r.x + delta * r.speed)
    ensures Update(cfg, r, delta) == State(0.0, 0.0, false, r.spinCount)
    ensures Idle(Update(cfg, r, delta))
  {
  }

  /** Conversely, a moving reel only ever stops by snapping: when its speed
      reaches 0 the offset is exactly 0 and the reel is idle. */
  lemma StopLeavesNoResidualOffset(cfg: Config, r: State, delta: real)
    requires cfg.slowdownRate > 0.0
    requires r.speed > 0.0 && Update(cfg, r, delta).speed == 0.0
    ensures Update(cfg, r, delta).x == 0.0 && Idle(Update(cfg, r, delta))
  {
  }

  // ---------------------------------------------------------------------------
  // The start and stop transitions

  /** `StartSpin` forgets the prior flag and speed: two reels at the same offset
      and wrap count start identically, and starting twice is starting once. */
  lemma StartSpinIgnoresPriorMotion(cfg: Config, r1: State, r2: State)
    requires r1.x == r2.x && r1.spinCount == r2.spinCount
    ensures StartSpin(cfg, r1) == StartSpin(cfg, r2)
    ensures StartSpin(cfg, StartSpin(cfg, r1)) == StartSpin(cfg, r1)
  {
  }

  /** `StopSpin` is idempotent and undoes only the flag that `StartSpin` set. */
  lemma StopSpinIdempotent(cfg: Config, r: State)
    ensures StopSpin(StopSpin(r)) == StopSpin(r)
    ensures StopSpin(StartSpin(cfg, r)).speed == cfg.startSpeed
    ensures Idle(r) ==> Idle(StopSpin(r))
  {
  }

  /** The decay guard is not reset by a new spin: a reel that wrapped during an
      earlier spin starts decaying on the first frame after the next stop, before
      it has wrapped again. */
  lemma StaleSpinCountOpensDecay(cfg: Config, r: State, delta: real)
    requires ValidConfig(cfg) && r.spinCount > 0
    requires r.x + delta * cfg.startSpeed <= cfg.viewportWidth
    requires !InSnapBand(r.x + delta * cfg.startSpeed)
    ensures var r' := Update(cfg, StopSpin(StartSpin(cfg, r)), delta);
      r'.spinCount == r.spinCount && r'.speed == Decay(cfg.startSpeed, cfg.slowdownRate) < cfg.startSpeed
  {
  }

  // ---------------------------------------------------------------------------
  // Phases and the reel invariant

  /** The phases of the reel's life cycle. */
  datatype Phase = Resting | Spinning | Slowing

  function PhaseOf(r: State): Phase {
    if r.isSpinning then Spinning
    else if Idle(r) then Resting
    else Slowing
  }

  /** What every reachable reel state satisfies: speed between 0 and the start
      speed, and exactly the start speed while the reel spins. */
  predicate Inv(cfg: Config, r: State) {
    && 0.0 <= r.speed <= cfg.startSpeed
    && (r.isSpinning ==> r.speed == cfg.startSpeed)
  }

  /** The initial state satisfies the invariant and all three operations keep it. */
  lemma InvPreserved(cfg: Config, r: State, delta: real)
    requires ValidConfig(cfg)
    ensures Inv(cfg, Initial())
    ensures Inv(cfg, r) ==> Inv(cfg, Update(cfg, r, delta))
    ensures Inv(cfg, r) ==> Inv(cfg, StartSpin(cfg, r))
    ensures Inv(cfg, r) ==> Inv(cfg, StopSpin(r))
  {
  }

  /** The phase transitions of the state machine: an update keeps a resting reel
      resting and a spinning reel spinning, and moves a slowing reel only to rest;
      `StartSpin` always leads to Spinning, and `StopSpin` turns Spinning into
      Slowing and leaves the other phases alone. */
  lemma PhaseTransitions(cfg: Config, r: State, delta: real)
    requires ValidConfig(cfg) && Inv(cfg, r)
    ensures PhaseOf(r) == Resting ==> PhaseOf(Update(cfg, r, delta)) == Resting
    ensures PhaseOf(r) == Spinning ==> PhaseOf(Update(cfg, r, delta)) == Spinning
    ensures PhaseOf(r) == Slowing ==> PhaseOf(Update(cfg, r, delta)) in {Slowing, Resting}
    ensures PhaseOf(StartSpin(cfg, r)) == Spinning
    ensures PhaseOf(r) == Spinning ==> PhaseOf(StopSpin(r)) == Slowing
    ensures PhaseOf(r) != Spinning ==> PhaseOf(StopSpin(r)) == PhaseOf(r)
  {
  }

  // ---------------------------------------------------------------------------
  // Runs of frames

  /** Once idle, a reel stays exactly where it is for any number of frames. */
  lemma {:induction false} IdleStaysIdle(cfg: Config, r: State, deltas: seq<real>)
    requires Idle(r)
    ensures Frames(cfg, r, deltas) == r
    decreases |deltas|
  {
    if |deltas| > 0 {
      UpdateIdleIsNoop(cfg, r, deltas[0]);
      IdleStaysIdle(cfg, r, deltas[1..]);
    }
  }

  /** While the reel stays flagged spinning its speed never changes: no decay and
      no snap, however many frames pass. */
  lemma {:induction false} SpinningKeepsSpeed(cfg: Config, r: State, deltas: seq<real>)
    requires r.isSpinning
    ensures Frames(cfg, r, deltas).isSpinning
    ensures Frames(cfg, r, deltas).speed == r.speed
    decreases |deltas|
  {
    if |deltas| > 0 {
      SpinningKeepsSpeed(cfg, Update(cfg, r, deltas[0]), deltas[1..]);
    }
  }

  /** The wrap count never decreases, and grows by at most one per frame. */
  lemma {:induction false} SpinCountMonotone(cfg: Config, r: State, deltas: seq<real>)
    ensures r.spinCount <= Frames(cfg, r, deltas).spinCount <= r.spinCount + |deltas|
    decreases |deltas|
  {
    if |deltas| > 0 {
      SpinCountMonotone(cfg, Update(cfg, r, deltas[0]), deltas[1..]);
    }
  }

  /** After a stop, the speed never increases and never goes negative. */
  lemma {:induction false} SlowingNeverSpeedsUp(cfg: Config, r: State, deltas: seq<real>)
    requires 0.0 < cfg.slowdownRate < 1.0
    requires !r.isSpinning && r.speed >= 0.0
    ensures 0.0 <= Frames(cfg, r, deltas).speed <= r.speed
    ensures !Frames(cfg, r, deltas).isSpinning
    decreases |deltas|
  {
    if |deltas| > 0 {
      var r1 := Update(cfg, r, deltas[0]);
      UpdateDecays(cfg, r, deltas[0]);
      SlowingNeverSpeedsUp(cfg, r1, deltas[1..]);
    }
  }

  /** The invariant holds after any run of frames. */
  lemma {:induction false} FramesKeepInv(cfg: Config, r: State, deltas: seq<real>)
    requires ValidConfig(cfg) && Inv(cfg, r)
    ensures Inv(cfg, Frames(cfg, r, deltas))
    decreases |deltas|
  {
    if |deltas| > 0 {
      InvPreserved(cfg, r, deltas[0]);
      FramesKeepInv(cfg, Update(cfg, r, deltas[0]), deltas[1..]);
    }
  }
}
