# Slot-machine reels and spin sequencing, in Dafny

This project models the two pieces of logic of the slot-machine client that
carry behaviour:

- **The reel motion state machine** (`src/slots/Reel.ts`), in `reel.dfy`,
  module `Reel`. A reel has a horizontal offset `x`, a `speed`, an `isSpinning`
  flag and a wrap counter `spinCount`. `Update` advances the offset by
  `delta * speed`, wraps it to `-stripWidth` past the viewport's right edge
  (counting the wrap), decays the speed by the slowdown rate once the reel is
  stopped and has wrapped, and snaps a decelerating reel to offset 0 and speed 0
  inside the band `[-25, 25]`. `StartSpin` and `StopSpin` are the two
  transitions. The viewport width, the strip width, the start speed and the
  slowdown rate are the fields of `Reel.Config`, a parameter of `Update` and
  `StartSpin`.
- **The controller's spin sequencing** (`src/slots/SlotMachine.ts`), in
  `slot_machine.dfy`, module `SlotMachine`. The machine is a record of the
  in-progress flag and the reels in order. Delayed callbacks are data: a
  `Timer(at, event)` with events `StartReel i`, `BeginStop`, `StopReel i` and
  `Settle`. `Spin` returns the new machine and the timers it sets. `Callback`
  gives the timers a firing callback sets: the stop phase sets one stop per
  reel, and the last reel's stop sets the settle step. `Effect` gives what a
  callback changes. `Cycle` is every timer of one spin cycle, obtained by
  closing `Spin`'s timers under `Callback`. `Update` forwards one frame to every
  reel. `Run` interleaves frames and firing timers.

What is proved, besides each operation's own contract:

- An idle reel never changes. `StartSpin` always yields a spinning reel at the
  start speed. `StopSpin` only clears the flag. A spinning reel's speed never
  changes. The wrap count grows by exactly one exactly when the strip wraps.
  The speed changes exactly when the reel is stopped, moving and has wrapped.
  A moving reel only stops by snapping, and then its offset is exactly 0.
- The reel phases (Resting, Spinning, Slowing) only move along the
  state-machine edges. The invariant `0 <= speed <= startSpeed` holds, with
  `speed == startSpeed` while spinning, from construction on and across any
  run of frames.
- A cycle of `n` reels starts every reel once and stops every reel once. The
  settle step runs exactly once when `n >= 1` and never when `n == 0`. Starts
  and stops are strictly increasing in the reel index. Every start precedes
  every stop, and the settle step follows every stop. The cycle's timers are
  listed in firing order, and the settle step sets no further timer.
- `spin` is refused at every point of a cycle before the settle step. After
  the cycle, with any interleaving of frames, the machine accepts `spin` again
  and every reel is flagged stopped.

Three behaviours of the code are easy to miss:

- `spinCount` is never reset by `startSpin` (`src/slots/Reel.ts:67-71`). So
  after a reel's first wrap, the "wrapped at least once" guard on deceleration
  stays open on every later spin (`Reel.StaleSpinCountOpensDecay`).
- With zero reels, the stop phase delay `100 + (0 - 1) * 220` is negative. The
  timer fires at once and stops no reel, so no settle step is ever set and the
  machine stays in progress for good (`SlotMachine.CycleCounts`,
  `SlotMachine.GuardHoldsUntilSettle`). A negative timer delay is clamped to 0
  (`SlotMachine.After`), as the browser's timer API does.
- The snap test runs after the wrap in the same frame. A strip no wider than
  the snap band can therefore wrap and snap in one frame
  (`Reel.UpdateWraps`).

## Model

| member | source | states |
|---|---|---|
| Reel.Initial | src/slots/Reel.ts:8-10 | a new reel is idle (not spinning, speed 0) at offset 0 and has never wrapped |
| Reel.Decay | src/slots/Reel.ts:53 | one deceleration step keeps a positive speed positive and makes it strictly smaller when the rate lies in (0, 1), and keeps speed 0 at 0 |
| Reel.Update | src/slots/Reel.ts:40-61 | one frame never changes the spinning flag, raises the wrap count by at most one, keeps the speed while spinning, and leaves the speed unchanged, decayed by the rate, or 0 |
| Reel.UpdateIdleIsNoop | src/slots/Reel.ts:41 | a reel that is not spinning and has speed 0 is returned unchanged: offset, speed and wrap count |
| Reel.UpdateAdvances | src/slots/Reel.ts:43 | with positive speed and delta and no wrap, the offset becomes exactly `x + delta * speed` whenever that lies outside the snap band or the reel is not a stopped, wrapped reel; otherwise the reel snapped to rest; so the offset strictly increases unless the reel snapped |
| Reel.UpdateWraps | src/slots/Reel.ts:46-49 | the wrap count rises by one if and only if a moving reel's advanced offset exceeds the viewport width; the offset is then `-stripWidth`, or 0 if a narrow strip snaps in the same frame |
| Reel.UpdateDecays | src/slots/Reel.ts:52-59 | the speed changes if and only if the reel is stopped, moving and has wrapped at least once; it then decays to `speed * rate`, staying positive and strictly smaller, or snaps to 0; it never goes negative |
| Reel.UpdateSnaps | src/slots/Reel.ts:56-59 | a decelerating reel whose advanced offset lies in `[-25, 25]` ends at exactly offset 0, speed 0, idle |
| Reel.StopLeavesNoResidualOffset | src/slots/Reel.ts:52-65 | a moving reel reaches speed 0 only by snapping, so its offset is then exactly 0 and it is idle |
| Reel.StartSpin | src/slots/Reel.ts:67-71 | the result is spinning at the start speed, with offset and wrap count kept |
| Reel.StartSpinIgnoresPriorMotion | src/slots/Reel.ts:67-71 | the result does not depend on the prior flag or speed, and starting twice equals starting once |
| Reel.StopSpin | src/slots/Reel.ts:73-76 | the result is not spinning, with offset, speed and wrap count kept |
| Reel.StopSpinIdempotent | src/slots/Reel.ts:73-76 | stopping twice equals stopping once; stopping a just-started reel keeps the start speed; an idle reel stays idle |
| Reel.StaleSpinCountOpensDecay | src/slots/Reel.ts:52-53 | a reel that wrapped during an earlier spin decays on the first frame after the next stop, before wrapping again |
| Reel.InvPreserved | src/slots/Reel.ts:8-76 | the initial reel satisfies `0 <= speed <= startSpeed` with `speed == startSpeed` while spinning, and update, start and stop keep it |
| Reel.PhaseTransitions | src/slots/Reel.ts:40-76 | update keeps Resting and Spinning and takes Slowing only to Slowing or Resting; start always gives Spinning; stop turns Spinning into Slowing and keeps the other phases |
| Reel.IdleStaysIdle | src/slots/Reel.ts:41 | an idle reel is unchanged by any run of frames |
| Reel.SpinningKeepsSpeed | src/slots/Reel.ts:52 | across any run of frames a spinning reel stays spinning at the same speed |
| Reel.SpinCountMonotone | src/slots/Reel.ts:46-49 | across a run of frames the wrap count never decreases and grows by at most one per frame |
| Reel.SlowingNeverSpeedsUp | src/slots/Reel.ts:52-59 | after a stop, the speed stays between 0 and its value at the stop across any run of frames |
| Reel.FramesKeepInv | src/slots/Reel.ts:40-61 | the reel invariant holds after any run of frames |
| SlotMachine.Create | src/slots/SlotMachine.ts:113-121 | a new machine has no cycle in progress, and every reel is a freshly constructed reel: at rest at offset 0 with wrap count 0 |
| SlotMachine.Spin | src/slots/SlotMachine.ts:58-83 | while a cycle is in progress the call changes nothing and sets no timer; otherwise it sets the flag, keeps the reels, and sets one start timer per reel and one stop-phase timer, and no settle timer; these are the first `n + 1` timers of the cycle, each at its scheduled time: start `i` at `i * 100`, the stop phase at `100 + (n - 1) * 220` clamped at 0 |
| SlotMachine.SpinTwiceSetsTimersOnce | src/slots/SlotMachine.ts:59 | a second call straight after an accepted one is refused, so each reel gets one start timer in all |
| SlotMachine.After | src/slots/SlotMachine.ts:79-81 | a timer never fires before it is set; a non-negative delay is added, a negative one counts as 0 |
| SlotMachine.StartTimers | src/slots/SlotMachine.ts:72-76 | the start loop sets exactly one timer per reel |
| SlotMachine.StartTimersAt | src/slots/SlotMachine.ts:72-76 | the `i`-th start timer starts reel `i` at `i * 100` after the spin |
| SlotMachine.StopTimers | src/slots/SlotMachine.ts:124-142 | the stop loop sets exactly one timer per reel |
| SlotMachine.StopTimersAt | src/slots/SlotMachine.ts:124-141 | the `i`-th stop timer stops reel `i` at `i * 100` after the stop phase |
| SlotMachine.Callback | src/slots/SlotMachine.ts:79-143 | the stop phase sets one timer per reel, the last reel's stop sets one timer, and every other callback sets none |
| SlotMachine.CallbackProperties | src/slots/SlotMachine.ts:123-143 | a callback never sets a timer in the past, and sets a settle timer if and only if it is the last reel's stop, and then exactly one |
| SlotMachine.SpinTimers | src/slots/SlotMachine.ts:72-81 | a spin sets one timer per reel followed by the stop-phase timer at its clamped delay |
| SlotMachine.SpinTimersCounts | src/slots/SlotMachine.ts:72-81 | the timers of a spin are one start per reel plus one stop phase |
| SlotMachine.StartTimersSetNothing | src/slots/SlotMachine.ts:73-75 | a reel start sets no further timer |
| SlotMachine.StopTimersSetSettle | src/slots/SlotMachine.ts:125-141 | among the reel stops only the last reel's sets a timer, the settle step 500 after it |
| SlotMachine.SpinSetsStops | src/slots/SlotMachine.ts:79-81 | the timers set by a spin's timers are exactly the reel stops, scheduled from the stop phase |
| SlotMachine.StopsSetSettle | src/slots/SlotMachine.ts:129-140 | the timers set by the reel stops are exactly the settle step, when there is a reel |
| SlotMachine.SettleSetsNothing | src/slots/SlotMachine.ts:130-139 | the settle step sets no timer, so a cycle is closed |
| SlotMachine.Cycle | src/slots/SlotMachine.ts:58-143 | the closure of a spin's timers under the callbacks is, flattened, the starts, the stop phase, one stop per reel and the settle step when there is a reel |
| SlotMachine.CycleCountOf | src/slots/SlotMachine.ts:72-143 | the number of times one event occurs in a cycle: 1 for each reel's start and stop and for the stop phase, 1 for settle when there is a reel, 0 otherwise |
| SlotMachine.CycleCounts | src/slots/SlotMachine.ts:72-143 | each reel is started once and stopped once, the stop phase runs once, and the settle step runs once for one or more reels and never for none |
| SlotMachine.CycleTimes | src/slots/SlotMachine.ts:72-141 | every timer of a cycle fires at its schedule: start `i` at `i * 100`, the stop phase at `100 + (n - 1) * 220` (clamped at 0), stop `i` `i * 100` after that, settle 500 after the last stop |
| SlotMachine.ScheduleOrder | src/slots/SlotMachine.ts:72-141 | starts and stops strictly increase with the reel index; every start precedes the stop phase, every stop is at or after it, and the settle step follows every stop |
| SlotMachine.CycleSorted | src/slots/SlotMachine.ts:72-141 | a cycle's timers are listed in firing order |
| SlotMachine.Effect | src/slots/SlotMachine.ts:73-132 | a reel start makes that reel `Reel.StartSpin` of itself and a reel stop makes it `Reel.StopSpin` of itself; no other reel changes; only the settle step clears the in-progress flag |
| SlotMachine.FlagClearedOnlyBySettle | src/slots/SlotMachine.ts:130-132 | after a run of timers the in-progress flag is set if and only if it was set and no settle step fired |
| SlotMachine.StopTimersStopReels | src/slots/SlotMachine.ts:124-126 | running the stop timers of the first `k` reels leaves those reels flagged stopped |
| SlotMachine.SettleIsLast | src/slots/SlotMachine.ts:129-140 | the settle step is the last timer of a cycle and no earlier timer settles; with no reels nothing settles |
| SlotMachine.GuardHoldsUntilSettle | src/slots/SlotMachine.ts:59 | before the settle step fires, the in-progress flag stays set, so `spin` is refused; with no reels it is never cleared |
| SlotMachine.CycleCompletes | src/slots/SlotMachine.ts:123-143 | after a full cycle of at least one reel the flag is clear, every reel is flagged stopped, and `spin` is accepted again |
| SlotMachine.UpdateReels | src/slots/SlotMachine.ts:53-55 | every reel is advanced once by the same delta, with count and order kept |
| SlotMachine.Update | src/slots/SlotMachine.ts:51-56 | a frame forwards the delta to every reel and leaves the in-progress flag and the reel count alone |
| SlotMachine.IdleMachineUpdateIsNoop | src/slots/SlotMachine.ts:51-56 | a frame on a machine whose reels are all idle changes nothing |
| SlotMachine.FramesDoNotChangeFlags | src/slots/SlotMachine.ts:51-56 | frames interleaved with timers leave every flag as the timers alone would |
| SlotMachine.SpinCycleCompletes | src/slots/SlotMachine.ts:58-143 | from an accepted spin of at least one reel, any interleaving of frames with the timers that spin sets and those their callbacks set ends with the flag clear and every reel stopped |
| SlotMachine.CreateSatisfiesReelsInv | src/slots/SlotMachine.ts:113-121 | every reel of a new machine satisfies the reel invariant |
| SlotMachine.StepKeepsReelsInv | src/slots/SlotMachine.ts:51-143 | every frame and every timer keeps the reel invariant on every reel |

## Left out

- Rendering and layout: sprites, containers, masks, backgrounds, centring and
  symbol positioning (`createBackground`, `createReelMask`,
  `populateReelContainer`, constructor positioning). They are visual only.
- Random symbol choice (`createRandomSymbol`) and the win check (`checkWin`).
  Both draw from `Math.random`. The win check is the opaque part of the settle
  step: the model counts settle steps and does not model the draw.
- Spine animations, texture swaps and enabling or disabling the spin button.
  They act on external library handles and are skipped when the handle is
  absent, so they do not affect the state modelled here.
- The sound wrapper (`src/utils/sound.ts`) and the `sound.play`/`sound.stop`
  calls. These are fire-and-forget calls into an audio library.
- Wall-clock time and the event loop. Timers are explicit `(time, event)`
  values. `Run` takes the order of frames and timers as input.
- Floating point. Offsets and speeds are `real`, so `speed *= SLOWDOWN_RATE`
  never rounds. In real arithmetic a slowing reel whose offset never enters the
  snap band keeps a positive speed forever. In IEEE double arithmetic the
  outcome depends on the rate. With a rate of 0.5 or less the speed
  underflows to 0 and the reel goes idle away from offset 0. With a rate above
  0.5 the speed freezes at a positive subnormal, because the product rounds
  back to the same value. The reel then never goes idle, which matches the
  real-number model.
- `window.innerWidth` and `container.width` are the `viewportWidth` and
  `stripWidth` fields of `Reel.Config`. GameConfig is not part
  of this model, so the start speed and slowdown rate are fields as well;
  lemmas that need their sign or range say so.
- One `Config` is shared by all reels and by every frame of a run
  (`Reel.Frames`, `SlotMachine.Update`, `SlotMachine.Step`, `SlotMachine.Run`).
  In the source each reel has its own `container.width`, and
  `window.innerWidth` is read again on every frame, so it can change between
  frames. No property proved here depends on either value being shared or
  fixed.
- A reel index out of range in a start or stop event is a no-op in `Effect`.
  In the source it would throw. `SlotMachine.CycleTimes` shows that a cycle
  never schedules such an index.
