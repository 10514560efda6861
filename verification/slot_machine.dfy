/** The slot-machine controller: a fixed row of reels, a re-entrancy flag, and
    the chain of delayed callbacks that makes up one spin cycle.

    Timers are modelled as data. Each callback is a pure function that returns
    the timers it sets (`Callback`) and the change it makes to the machine
    (`Effect`); a spin cycle (`Cycle`) is the closure of the timers `Spin` sets
    under `Callback`. Times are integer milliseconds. */
module SlotMachine {
  import Reel

  /** Delay between the last reel's stop and the settle step. */
  const SettleDelay: int := 500

  /** The controller: whether a spin cycle is in progress, and the reels in order. */
  datatype Machine = Machine(isSpinning: bool, reels: seq<Reel.State>)

  /** A freshly constructed machine of `n` reels: no cycle in progress, every
      reel freshly constructed, so at rest at offset 0 and never wrapped. */
  function Create(n: nat): (m: Machine)
    ensures !m.isSpinning && |m.reels| == n
    ensures forall i :: 0 <= i < n ==> m.reels[i] == Reel.Initial()
    ensures forall i :: 0 <= i < n ==> Reel.Idle(m.reels[i]) && m.reels[i].x == 0.0 && m.reels[i].spinCount == 0
  {
    Machine(false, seq(n, _ => Reel.Initial()))
  }

  /** What a timer does when it fires: start or stop one reel, begin the stop
      phase, or settle the cycle (win check, flag cleared, button enabled). */
  datatype Event = StartReel(index: nat) | BeginStop | StopReel(index: nat) | Settle

  /** A pending callback and the time it fires at. */
  datatype Timer = Timer(at: int, event: Event)

  /** The firing time of a timer set at `now` with the given delay; a negative
      delay fires at once, as the timer API clamps it to 0. */
  function After(now: int, delay: int): (t: int)
    ensures t >= now
    ensures delay >= 0 ==> t == now + delay
    ensures delay < 0 ==> t == now
  {
    if delay < 0 then now else now + delay
  }

  /** Delay from a spin to reel `i`'s start: 100 ms per reel. */
  function StartDelay(i: int): int {
    i * 100
  }

  /** Delay from a spin to its stop phase, for `n` reels (negative when `n` is 0). */
  function StopPhaseDelay(n: nat): int {
    100 + (n - 1) * 220
  }

  /** Delay from the stop phase to reel `i`'s stop: 100 ms per reel. */
  function StopDelay(i: int): int {
    i * 100
  }

  // ---------------------------------------------------------------------------
  // Absolute times of the events of a cycle that starts at `now`

  function StartTime(now: int, i: int): int {
    now + StartDelay(i)
  }

  function StopPhaseTime(now: int, n: nat): int {
    After(now, StopPhaseDelay(n))
  }

  function StopTime(now: int, n: nat, i: int): int {
    StopPhaseTime(now, n) + StopDelay(i)
  }

  function SettleTime(now: int, n: nat): int {
    StopTime(now, n, n - 1) + SettleDelay
  }

  // ---------------------------------------------------------------------------
  // The timers each step sets

  /** Number of timers in `ts` that fire `e`. */
  function Count(ts: seq<Timer>, e: Event): nat {
    if |ts| == 0 then 0
    else Count(ts[..|ts| - 1], e) + (if ts[|ts| - 1].event == e then 1 else 0)
  }

  /** The start timers of the first `k` reels, set at `now`, one per reel in index order. */
  function StartTimers(now: int, k: nat): (ts: seq<Timer>)
    ensures |ts| == k
  {
    if k == 0 then []
    else StartTimers(now, k - 1) + [Timer(After(now, StartDelay(k - 1)), StartReel(k - 1))]
  }

  /** The stop timers of the first `k` reels, set at `now`, one per reel in index order. */
  function StopTimers(now: int, k: nat): (ts: seq<Timer>)
    ensures |ts| == k
  {
    if k == 0 then []
    else StopTimers(now, k - 1) + [Timer(After(now, StopDelay(k - 1)), StopReel(k - 1))]
  }

  /** The timers `spin` sets for `n` reels at time `now`: every reel's start,
      then the stop phase. */
  function SpinTimers(now: int, n: nat): (ts: seq<Timer>)
    ensures |ts| == n + 1 && ts[n] == Timer(StopPhaseTime(now, n), BeginStop)
  {
    StartTimers(now, n) + [Timer(StopPhaseTime(now, n), BeginStop)]
  }

  /** The timers a firing timer sets from inside its callback, for `n` reels.
      Only the stop phase and the last reel's stop set any. */
  function Callback(n: nat, t: Timer): (ts: seq<Timer>)
    ensures |ts| == (if t.event.BeginStop? then n
                     else if t.event.StopReel? && t.event.index + 1 == n then 1
                     else 0)
  {
    match t.event
    case BeginStop => StopTimers(t.at, n)
    case StopReel(i) =>
      if i == n - 1 then [Timer(After(t.at, SettleDelay), Settle)] else []
    case _ => []
  }

  /** The timers set, in order, by the callbacks of `ts`. */
  function FollowUps(n: nat, ts: seq<Timer>): seq<Timer> {
    Collect(t => Callback(n, t), ts)
  }

  /** The concatenation, in order, of what `f` gives for each timer of `ts`. */
  function Collect(f: Timer -> seq<Timer>, ts: seq<Timer>): seq<Timer> {
    if |ts| == 0 then []
    else Collect(f, ts[..|ts| - 1]) + f(ts[|ts| - 1])
  }

  /** Every timer of one spin cycle of `n` reels begun at `now`: those `spin`
      sets, those the stop phase sets, and those the reel stops set. Flattened,
      that is the starts, the stop phase, one stop per reel and, when there is
      a reel, the settle step. */
  function Cycle(now: int, n: nat): (c: seq<Timer>)
    ensures c == StartTimers(now, n) + [Timer(StopPhaseTime(now, n), BeginStop)]
                 + StopTimers(StopPhaseTime(now, n), n) + SettleTimers(now, n)
  {
    SpinSetsStops(now, n);
    StopsSetSettle(now, n);
    Expand(n, SpinTimers(now, n))
  }

  /** The timers `ts`, followed by those their callbacks set and those that
      these set in turn: two levels of nesting, the depth of a spin cycle. */
  function Expand(n: nat, ts: seq<Timer>): seq<Timer> {
    var next := FollowUps(n, ts);
    ts + next + FollowUps(n, next)
  }

  /** The settle timer of a cycle, present only when there is a last reel. */
  function SettleTimers(now: int, n: nat): seq<Timer> {
    if n == 0 then [] else [Timer(SettleTime(now, n), Settle)]
  }

  // ---------------------------------------------------------------------------
  // The controller's operations

  /** `spin`: refused while a cycle is in progress; otherwise marks the cycle
      started and sets the start timers and the stop-phase timer. */
  function Spin(m: Machine, now: int): (r: (Machine, seq<Timer>))
    ensures m.isSpinning ==> r == (m, [])
    ensures !m.isSpinning ==> r.0.isSpinning && r.0.reels == m.reels
    ensures !m.isSpinning ==> forall i: nat :: Count(r.1, StartReel(i)) == (if i < |m.reels| then 1 else 0)
    ensures !m.isSpinning ==> Count(r.1, BeginStop) == 1 && Count(r.1, Settle) == 0
    ensures !m.isSpinning ==> r.1 == Cycle(now, |m.reels|)[..|m.reels| + 1]
    ensures !m.isSpinning ==> forall t :: t in r.1 ==> Scheduled(now, |m.reels|, t)
  {
    if m.isSpinning then (m, [])
    else
      var n := |m.reels|;
      var timers := SpinTimers(now, n);
      SpinTimersCounts(now, n);
      CycleTimes(now, n);
      assert timers == Cycle(now, n)[..n + 1];
      (m.(isSpinning := true), timers)
  }

  /** True when `e` addresses reel `j`. */
  predicate Targets(e: Event, j: int) {
    (e.StartReel? || e.StopReel?) && e.index == j
  }

  /** What a firing timer changes: a reel start or stop touches only that reel,
      and only the settle step clears the in-progress flag. The win check that
      also runs at settle has no effect on this state. */
  function Effect(cfg: Reel.Config, m: Machine, e: Event): (m': Machine)
    ensures |m'.reels| == |m.reels|
    ensures m'.isSpinning == (m.isSpinning && e != Settle)
    ensures forall j :: 0 <= j < |m.reels| && !Targets(e, j) ==> m'.reels[j] == m.reels[j]
    ensures e.StartReel? && e.index < |m.reels| ==> m'.reels[e.index] == Reel.StartSpin(cfg, m.reels[e.index])
    ensures e.StopReel? && e.index < |m.reels| ==> m'.reels[e.index] == Reel.StopSpin(m.reels[e.index])
    ensures e.StartReel? && e.index < |m.reels| ==> m'.reels[e.index].isSpinning
    ensures e.StopReel? && e.index < |m.reels| ==> !m'.reels[e.index].isSpinning
  {
    match e
    case StartReel(i) =>
      if i < |m.reels| then m.(reels := m.reels[i := Reel.StartSpin(cfg, m.reels[i])]) else m
    case StopReel(i) =>
      if i < |m.reels| then m.(reels := m.reels[i := Reel.StopSpin(m.reels[i])]) else m
    case BeginStop => m
    case Settle => m.(isSpinning := false)
  }

  /** Every reel advanced by the same frame, in order. */
  function UpdateReels(cfg: Reel.Config, rs: seq<Reel.State>, delta: real): (rs': seq<Reel.State>)
    ensures |rs'| == |rs|
    ensures forall i :: 0 <= i < |rs| ==> rs'[i] == Reel.Update(cfg, rs[i], delta)
  {
    if |rs| == 0 then []
    else UpdateReels(cfg, rs[..|rs| - 1], delta) + [Reel.Update(cfg, rs[|rs| - 1], delta)]
  }

  /** `update`: one frame for the whole machine. */
  function Update(cfg: Reel.Config, m: Machine, delta: real): (m': Machine)
    ensures m'.isSpinning == m.isSpinning
    ensures |m'.reels| == |m.reels|
    ensures forall i :: 0 <= i < |m.reels| ==> m'.reels[i] == Reel.Update(cfg, m.reels[i], delta)
  {
    m.(reels := UpdateReels(cfg, m.reels, delta))
  }

  /** What the event loop delivers: an animation frame or a firing timer. */
  datatype Input = Frame(delta: real) | Fire(timer: Timer)

  function Step(cfg: Reel.Config, m: Machine, input: Input): Machine {
    match input
    case Frame(delta) => Update(cfg, m, delta)
    case Fire(t) => Effect(cfg, m, t.event)
  }

  /** The machine after a sequence of inputs, earliest first. */
  function Run(cfg: Reel.Config, m: Machine, ins: seq<Input>): Machine {
    if |ins| == 0 then m else Step(cfg, Run(cfg, m, ins[..|ins| - 1]), ins[|ins| - 1])
  }

  /** The machine after only the given timers fire, earliest first. */
  function RunTimers(cfg: Reel.Config, m: Machine, ts: seq<Timer>): Machine {
    if |ts| == 0 then m else Effect(cfg, RunTimers(cfg, m, ts[..|ts| - 1]), ts[|ts| - 1].event)
  }

  /** The timers among a sequence of inputs, in order. */
  function Timers(ins: seq<Input>): seq<Timer> {
    if |ins| == 0 then []
    else Timers(ins[..|ins| - 1]) + (if ins[|ins| - 1].Fire? then [ins[|ins| - 1].timer] else [])
  }

  // ---------------------------------------------------------------------------
  // Structure of a spin cycle

  /** Reel `i`'s start timer is the `i`-th, at its scheduled start time. */
  lemma {:induction false} StartTimersAt(now: int, k: nat)
    ensures forall i :: 0 <= i < k ==> StartTimers(now, k)[i] == Timer(StartTime(now, i), StartReel(i))
  {
    if k > 0 {
      StartTimersAt(now, k - 1);
    }
  }

  /** Reel `i`'s stop timer is the `i`-th, `StopDelay(i)` after it is set. */
  lemma {:induction false} StopTimersAt(now: int, k: nat)
    ensures forall i :: 0 <= i < k ==> StopTimers(now, k)[i] == Timer(now + StopDelay(i), StopReel(i))
  {
    if k > 0 {
      StopTimersAt(now, k - 1);
    }
  }

  lemma {:induction false} CountAppend(a: seq<Timer>, b: seq<Timer>, e: Event)
    ensures Count(a + b, e) == Count(a, e) + Count(b, e)
    decreases |b|
  {
    if |b| == 0 {
      assert a + b == a;
    } else {
      assert (a + b)[..|a + b| - 1] == a + b[..|b| - 1];
      assert (a + b)[|a + b| - 1] == b[|b| - 1];
      CountAppend(a, b[..|b| - 1], e);
    }
  }

  lemma {:induction false} CountStartTimers(now: int, k: nat, e: Event)
    ensures Count(StartTimers(now, k), e) == (if e.StartReel? && e.index < k then 1 else 0)
  {
    if k > 0 {
      var t := Timer(After(now, StartDelay(k - 1)), StartReel(k - 1));
      CountStartTimers(now, k - 1, e);
      CountAppend(StartTimers(now, k - 1), [t], e);
      assert Count([t], e) == Count([], e) + (if t.event == e then 1 else 0);
    }
  }

  lemma {:induction false} CountStopTimers(now: int, k: nat, e: Event)
    ensures Count(StopTimers(now, k), e) == (if e.StopReel? && e.index < k then 1 else 0)
  {
    if k > 0 {
      var t := Timer(After(now, StopDelay(k - 1)), StopReel(k - 1));
      CountStopTimers(now, k - 1, e);
      CountAppend(StopTimers(now, k - 1), [t], e);
      assert Count([t], e) == Count([], e) + (if t.event == e then 1 else 0);
    }
  }

  /** A callback never sets a timer in the past, and it sets a settle timer
      exactly when it is the stop of the last reel, and then only one. */
  lemma CallbackProperties(n: nat, t: Timer)
    ensures forall u :: u in Callback(n, t) ==> u.at >= t.at
    ensures Count(Callback(n, t), Settle) == (if t.event.StopReel? && t.event.index + 1 == n then 1 else 0)
  {
    match t.event
    case BeginStop =>
      CountStopTimers(t.at, n, Settle);
      StopTimersAt(t.at, n);
      forall u | u in StopTimers(t.at, n)
        ensures u.at >= t.at
      {
        var i :| 0 <= i < n && StopTimers(t.at, n)[i] == u;
      }
    case StopReel(i) =>
      var ts := Callback(n, t);
      if i == n - 1 {
        assert Count(ts, Settle) == Count([], Settle) + 1;
      }
    case _ =>
  }

  /** `spin` sets exactly one start timer per reel and one stop-phase timer. */
  lemma SpinTimersCounts(now: int, n: nat)
    ensures forall e :: Count(SpinTimers(now, n), e)
                     == (if e.StartReel? && e.index < n then 1 else 0) + (if e == BeginStop then 1 else 0)
  {
    forall e
      ensures Count(SpinTimers(now, n), e)
              == (if e.StartReel? && e.index < n then 1 else 0) + (if e == BeginStop then 1 else 0)
    {
      var b := Timer(StopPhaseTime(now, n), BeginStop);
      CountStartTimers(now, n, e);
      CountAppend(StartTimers(now, n), [b], e);
      assert Count([b], e) == Count([], e) + (if b.event == e then 1 else 0);
    }
  }

  lemma {:induction false} CollectAppend(f: Timer -> seq<Timer>, a: seq<Timer>, b: seq<Timer>)
    ensures Collect(f, a + b) == Collect(f, a) + Collect(f, b)
    decreases |b|
  {
    if |b| == 0 {
      assert a + b == a;
    } else {
      assert (a + b)[..|a + b| - 1] == a + b[..|b| - 1];
      assert (a + b)[|a + b| - 1] == b[|b| - 1];
      CollectAppend(f, a, b[..|b| - 1]);
    }
  }

  lemma FollowUpsAppend(n: nat, a: seq<Timer>, b: seq<Timer>)
    ensures FollowUps(n, a + b) == FollowUps(n, a) + FollowUps(n, b)
  {
    CollectAppend(t => Callback(n, t), a, b);
  }

  /** The follow-ups of a single timer are its callback's timers. */
  lemma FollowUpsSingle(n: nat, t: Timer)
    ensures FollowUps(n, [t]) == Callback(n, t)
  {
    assert [t][..0] == [];
    assert [t][0] == t;
    assert FollowUps(n, [t]) == FollowUps(n, []) + Callback(n, t);
  }

  /** Reel starts set no further timers. */
  lemma {:induction false} StartTimersSetNothing(n: nat, now: int, k: nat)
    ensures FollowUps(n, StartTimers(now, k)) == []
  {
    if k > 0 {
      var t := Timer(After(now, StartDelay(k - 1)), StartReel(k - 1));
      StartTimersSetNothing(n, now, k - 1);
      FollowUpsAppend(n, StartTimers(now, k - 1), [t]);
      FollowUpsSingle(n, t);
    }
  }

  /** Of the stop timers of the first `k` of `n` reels, only the last reel's
      sets a timer, and that is the settle step. */
  lemma {:induction false} StopTimersSetSettle(n: nat, now: int, k: nat)
    requires k <= n
    ensures FollowUps(n, StopTimers(now, k))
      == if k == n && n > 0 then [Timer(now + StopDelay(n - 1) + SettleDelay, Settle)] else []
  {
    if k > 0 {
      var t := Timer(After(now, StopDelay(k - 1)), StopReel(k - 1));
      StopTimersSetSettle(n, now, k - 1);
      FollowUpsAppend(n, StopTimers(now, k - 1), [t]);
      FollowUpsSingle(n, t);
    }
  }

  /** The timers set by `spin`'s timers are exactly the reel stops. */
  lemma SpinSetsStops(now: int, n: nat)
    ensures FollowUps(n, SpinTimers(now, n)) == StopTimers(StopPhaseTime(now, n), n)
  {
    var b := Timer(StopPhaseTime(now, n), BeginStop);
    FollowUpsAppend(n, StartTimers(now, n), [b]);
    StartTimersSetNothing(n, now, n);
    FollowUpsSingle(n, b);
  }

  /** The timers set by the reel stops are exactly the settle step. */
  lemma StopsSetSettle(now: int, n: nat)
    ensures FollowUps(n, StopTimers(StopPhaseTime(now, n), n)) == SettleTimers(now, n)
  {
    StopTimersSetSettle(n, StopPhaseTime(now, n), n);
  }

  /** The settle step sets no timer. */
  lemma SettleSetsNothing(now: int, n: nat)
    ensures FollowUps(n, SettleTimers(now, n)) == []
  {
    if n > 0 {
      FollowUpsSingle(n, Timer(SettleTime(now, n), Settle));
    }
  }

  /** Every reel is started exactly once and stopped exactly once, the stop
      phase begins once, and the settle step (with its win check) runs exactly
      once when there is at least one reel and never when there is none. */
  lemma CycleCounts(now: int, n: nat)
    ensures forall i: nat :: Count(Cycle(now, n), StartReel(i)) == (if i < n then 1 else 0)
    ensures forall i: nat :: Count(Cycle(now, n), StopReel(i)) == (if i < n then 1 else 0)
    ensures Count(Cycle(now, n), BeginStop) == 1
    ensures Count(Cycle(now, n), Settle) == (if n >= 1 then 1 else 0)
  {
    forall i: nat
      ensures Count(Cycle(now, n), StartReel(i)) == (if i < n then 1 else 0)
      ensures Count(Cycle(now, n), StopReel(i)) == (if i < n then 1 else 0)
    {
      CycleCountOf(now, n, StartReel(i));
      CycleCountOf(now, n, StopReel(i));
    }
    CycleCountOf(now, n, BeginStop);
    CycleCountOf(now, n, Settle);
  }

  /** How often one event occurs in a cycle. */
  lemma CycleCountOf(now: int, n: nat, e: Event)
    ensures Count(Cycle(now, n), e)
            == (if e.StartReel? && e.index < n then 1 else 0)
               + (if e.StopReel? && e.index < n then 1 else 0)
               + (if e == BeginStop then 1 else 0)
               + (if e == Settle && n >= 1 then 1 else 0)
  {
    var b := [Timer(StopPhaseTime(now, n), BeginStop)];
    var starts := StartTimers(now, n);
    var stops := StopTimers(StopPhaseTime(now, n), n);
    var settle := SettleTimers(now, n);
    CountAppend(starts, b, e);
    CountAppend(starts + b, stops, e);
    CountAppend(starts + b + stops, settle, e);
    CountStartTimers(now, n, e);
    CountStopTimers(StopPhaseTime(now, n), n, e);
    assert Count(b, e) == Count([], e) + (if BeginStop == e then 1 else 0);
    if n > 0 {
      assert Count(settle, e) == Count([], e) + (if Settle == e then 1 else 0);
    }
  }

  /** Which timer fires when. */
  predicate Scheduled(now: int, n: nat, t: Timer) {
    match t.event
    case StartReel(i) => i < n && t.at == StartTime(now, i)
    case BeginStop => t.at == StopPhaseTime(now, n)
    case StopReel(i) => i < n && t.at == StopTime(now, n, i)
    case Settle => n >= 1 && t.at == SettleTime(now, n)
  }

  /** Every timer of a cycle fires at its scheduled time. */
  lemma CycleTimes(now: int, n: nat)
    ensures forall t :: t in Cycle(now, n) ==> Scheduled(now, n, t)
  {
    StartTimersAt(now, n);
    StopTimersAt(StopPhaseTime(now, n), n);
    forall t | t in Cycle(now, n)
      ensures Scheduled(now, n, t)
    {
      var starts := StartTimers(now, n);
      var stops := StopTimers(StopPhaseTime(now, n), n);
      if t in starts {
        var i :| 0 <= i < |starts| && starts[i] == t;
      } else if t in stops {
        var i :| 0 <= i < |stops| && stops[i] == t;
      }
    }
  }

  /** The schedule's order: starts strictly increase with the reel index, and so
      do stops; with at least one reel, every start comes strictly before the
      stop phase, every stop at or after it, and the settle step strictly after
      every stop. In particular each reel is started before it is stopped. */
  lemma ScheduleOrder(now: int, n: nat)
    ensures forall i, j :: 0 <= i < j ==> StartTime(now, i) < StartTime(now, j)
    ensures forall i, j :: 0 <= i < j ==> StopTime(now, n, i) < StopTime(now, n, j)
    ensures n >= 1 ==> forall i :: 0 <= i < n ==>
      StartTime(now, i) < StopPhaseTime(now, n) <= StopTime(now, n, i) < SettleTime(now, n)
  {
  }

  /** The time at which the `j`-th timer of a cycle fires. */
  function SlotTime(now: int, n: nat, j: int): int {
    if j < n then StartTime(now, j)
    else if j == n then StopPhaseTime(now, n)
    else if j <= 2 * n then StopTime(now, n, j - n - 1)
    else SettleTime(now, n)
  }

  /** The timers of a cycle are listed in the order they fire: their times never
      decrease. The one tie (the stop phase and reel 0's stop) is listed in the
      order the first sets the second. */
  lemma CycleSorted(now: int, n: nat)
    ensures forall j, k :: 0 <= j < k < |Cycle(now, n)| ==> Cycle(now, n)[j].at <= Cycle(now, n)[k].at
  {
    var c := Cycle(now, n);
    var stops := StopTimers(StopPhaseTime(now, n), n);
    assert |c| == 2 * n + 1 + |SettleTimers(now, n)|;
    StartTimersAt(now, n);
    StopTimersAt(StopPhaseTime(now, n), n);
    forall j | 0 <= j < |c|
      ensures c[j].at == SlotTime(now, n, j)
    {
      if j < n {
        assert c[j] == StartTimers(now, n)[j];
      } else if n < j <= 2 * n {
        assert c[j] == stops[j - n - 1];
      }
    }
    if n > 0 {
      forall j, k | 0 <= j < k < |c|
        ensures c[j].at <= c[k].at
      {
        assert SlotTime(now, n, j) <= SlotTime(now, n, k);
      }
    }
  }

  // ---------------------------------------------------------------------------
  // Running a cycle

  lemma {:induction false} RunTimersAppend(cfg: Reel.Config, m: Machine, a: seq<Timer>, b: seq<Timer>)
    ensures RunTimers(cfg, m, a + b) == RunTimers(cfg, RunTimers(cfg, m, a), b)
    decreases |b|
  {
    if |b| == 0 {
      assert a + b == a;
    } else {
      assert (a + b)[..|a + b| - 1] == a + b[..|b| - 1];
      assert (a + b)[|a + b| - 1] == b[|b| - 1];
      RunTimersAppend(cfg, m, a, b[..|b| - 1]);
    }
  }

  /** The in-progress flag survives a run of timers exactly when it was set and
      no settle step fired. */
  lemma {:induction false} FlagClearedOnlyBySettle(cfg: Reel.Config, m: Machine, ts: seq<Timer>)
    ensures RunTimers(cfg, m, ts).isSpinning <==> m.isSpinning && Count(ts, Settle) == 0
    ensures |RunTimers(cfg, m, ts).reels| == |m.reels|
  {
    if |ts| > 0 {
      FlagClearedOnlyBySettle(cfg, m, ts[..|ts| - 1]);
    }
  }

  /** Running the stop timers of the first `k` reels leaves those reels stopped. */
  lemma {:induction false} StopTimersStopReels(cfg: Reel.Config, m: Machine, now: int, k: nat)
    requires k <= |m.reels|
    ensures |RunTimers(cfg, m, StopTimers(now, k)).reels| == |m.reels|
    ensures forall i :: 0 <= i < k ==> !RunTimers(cfg, m, StopTimers(now, k)).reels[i].isSpinning
  {
    if k > 0 {
      var t := Timer(After(now, StopDelay(k - 1)), StopReel(k - 1));
      StopTimersStopReels(cfg, m, now, k - 1);
      RunTimersAppend(cfg, m, StopTimers(now, k - 1), [t]);
      var before := RunTimers(cfg, m, StopTimers(now, k - 1));
      assert RunTimers(cfg, before, [t]) == Effect(cfg, RunTimers(cfg, before, []), t.event);
    }
  }

  lemma CountPrefix(ts: seq<Timer>, k: nat, e: Event)
    requires k <= |ts|
    ensures Count(ts[..k], e) <= Count(ts, e)
  {
    assert ts == ts[..k] + ts[k..];
    CountAppend(ts[..k], ts[k..], e);
  }

  /** With at least one reel the settle step is the last timer of a cycle and
      no earlier timer settles; with none, no timer settles. */
  lemma SettleIsLast(now: int, n: nat)
    ensures n >= 1 ==> Count(Cycle(now, n)[..|Cycle(now, n)| - 1], Settle) == 0
    ensures n >= 1 ==> Cycle(now, n)[|Cycle(now, n)| - 1].event == Settle
    ensures n == 0 ==> Count(Cycle(now, n), Settle) == 0
  {
    CycleCounts(now, n);
    var c := Cycle(now, n);
    if n >= 1 {
      var last := c[|c| - 1];
      assert c == c[..|c| - 1] + [last];
      CountAppend(c[..|c| - 1], [last], Settle);
      assert Count([last], Settle) == Count([], Settle) + 1;
    }
  }

  /** While a cycle is under way the in-progress flag stays set, so `spin` is
      refused at every point before the settle step; with no reels the flag is
      never cleared at all. */
  lemma GuardHoldsUntilSettle(cfg: Reel.Config, m: Machine, now: int)
    requires m.isSpinning
    ensures forall k :: 0 <= k < |Cycle(now, |m.reels|)| ==>
      RunTimers(cfg, m, Cycle(now, |m.reels|)[..k]).isSpinning
    ensures |m.reels| == 0 ==> RunTimers(cfg, m, Cycle(now, 0)).isSpinning
  {
    var n := |m.reels|;
    var c := Cycle(now, n);
    SettleIsLast(now, n);
    if n == 0 {
      FlagClearedOnlyBySettle(cfg, m, c);
    }
    forall k | 0 <= k < |c|
      ensures RunTimers(cfg, m, c[..k]).isSpinning
    {
      if n >= 1 {
        assert c[..k] == c[..|c| - 1][..k];
        CountPrefix(c[..|c| - 1], k, Settle);
      } else {
        CountPrefix(c, k, Settle);
      }
      FlagClearedOnlyBySettle(cfg, m, c[..k]);
    }
  }

  /** A completed cycle of at least one reel leaves the machine ready for the
      next spin, with every reel flagged stopped and the reel count unchanged. */
  lemma CycleCompletes(cfg: Reel.Config, m: Machine, now: int)
    requires |m.reels| >= 1
    ensures var r := RunTimers(cfg, m, Cycle(now, |m.reels|));
      && !r.isSpinning
      && |r.reels| == |m.reels|
      && (forall i :: 0 <= i < |r.reels| ==> !r.reels[i].isSpinning)
      && Spin(r, now).0.isSpinning
  {
    var n := |m.reels|;
    var prefix := StartTimers(now, n) + [Timer(StopPhaseTime(now, n), BeginStop)];
    var stops := StopTimers(StopPhaseTime(now, n), n);
    var settle := SettleTimers(now, n);
    CycleCountOf(now, n, Settle);
    FlagClearedOnlyBySettle(cfg, m, Cycle(now, n));
    RunTimersAppend(cfg, m, prefix + stops, settle);
    RunTimersAppend(cfg, m, prefix, stops);
    var mid := RunTimers(cfg, m, prefix);
    FlagClearedOnlyBySettle(cfg, m, prefix);
    StopTimersStopReels(cfg, mid, StopPhaseTime(now, n), n);
    var stopped := RunTimers(cfg, mid, stops);
    assert RunTimers(cfg, stopped, settle) == Effect(cfg, RunTimers(cfg, stopped, []), Settle);
  }

  // ---------------------------------------------------------------------------
  // Frames interleaved with timers

  /** Two machines agree on every flag the spin sequencing reads or writes. */
  predicate SameFlags(a: Machine, b: Machine) {
    && a.isSpinning == b.isSpinning
    && |a.reels| == |b.reels|
    && forall i :: 0 <= i < |a.reels| ==> a.reels[i].isSpinning == b.reels[i].isSpinning
  }

  /** Frames never change any flag, and every timer changes the flags of
      flag-equal machines alike; so the flags after any interleaving of frames
      and timers are those after the timers alone. */
  lemma {:induction false} FramesDoNotChangeFlags(cfg: Reel.Config, m: Machine, ins: seq<Input>)
    ensures SameFlags(Run(cfg, m, ins), RunTimers(cfg, m, Timers(ins)))
  {
    if |ins| > 0 {
      var init := ins[..|ins| - 1];
      var last := ins[|ins| - 1];
      FramesDoNotChangeFlags(cfg, m, init);
      var x := Run(cfg, m, init);
      var y := RunTimers(cfg, m, Timers(init));
      if last.Fire? {
        RunTimersAppend(cfg, m, Timers(init), [last.timer]);
        assert RunTimers(cfg, y, [last.timer]) == Effect(cfg, RunTimers(cfg, y, []), last.timer.event);
      } else {
        assert Timers(ins) == Timers(init) + [];
        assert Timers(init) + [] == Timers(init);
        assert Run(cfg, m, ins) == Update(cfg, x, last.delta);
        forall i | 0 <= i < |x.reels|
          ensures Update(cfg, x, last.delta).reels[i].isSpinning == x.reels[i].isSpinning
        {
        }
      }
    }
  }

  /** However animation frames are interleaved with the timers an accepted
      `spin` of at least one reel sets, directly or through their callbacks,
      the cycle ends with the machine ready to spin again and every reel
      flagged stopped. */
  lemma SpinCycleCompletes(cfg: Reel.Config, m: Machine, now: int, ins: seq<Input>)
    requires !m.isSpinning && |m.reels| >= 1
    requires Timers(ins) == Expand(|m.reels|, Spin(m, now).1)
    ensures var r := Run(cfg, Spin(m, now).0, ins);
      && !r.isSpinning
      && |r.reels| == |m.reels|
      && (forall i :: 0 <= i < |r.reels| ==> !r.reels[i].isSpinning)
  {
    var m1 := Spin(m, now).0;
    assert Spin(m, now).1 == SpinTimers(now, |m.reels|);
    FramesDoNotChangeFlags(cfg, m1, ins);
    CycleCompletes(cfg, m1, now);
  }

  /** A frame on a machine whose reels are all idle changes nothing. */
  lemma IdleMachineUpdateIsNoop(cfg: Reel.Config, m: Machine, delta: real)
    requires forall i :: 0 <= i < |m.reels| ==> Reel.Idle(m.reels[i])
    ensures Update(cfg, m, delta) == m
  {
  }

  // ---------------------------------------------------------------------------
  // The reel invariant across the machine

  predicate ReelsInv(cfg: Reel.Config, m: Machine) {
    forall i :: 0 <= i < |m.reels| ==> Reel.Inv(cfg, m.reels[i])
  }

  /** A new machine satisfies the reel invariant on every reel. */
  lemma CreateSatisfiesReelsInv(cfg: Reel.Config, n: nat)
    requires Reel.ValidConfig(cfg)
    ensures ReelsInv(cfg, Create(n))
  {
    Reel.InvPreserved(cfg, Reel.Initial(), 0.0);
  }

  /** Every frame and every timer keeps the reel invariant on every reel. */
  lemma StepKeepsReelsInv(cfg: Reel.Config, m: Machine, input: Input)
    requires Reel.ValidConfig(cfg)
    ensures ReelsInv(cfg, m) ==> ReelsInv(cfg, Step(cfg, m, input))
  {
    if ReelsInv(cfg, m) {
      var m' := Step(cfg, m, input);
      forall i | 0 <= i < |m'.reels|
        ensures Reel.Inv(cfg, m'.reels[i])
      {
        match input
        case Frame(delta) =>
          Reel.InvPreserved(cfg, m.reels[i], delta);
        case Fire(t) =>
          Reel.InvPreserved(cfg, m.reels[i], 0.0);
      }
    }
  }

  /** Two `spin` calls in a row set the timers of one cycle only: the second
      call is refused and sets nothing. */
  lemma SpinTwiceSetsTimersOnce(m: Machine, now: int, later: int)
    requires !m.isSpinning
    ensures Spin(Spin(m, now).0, later) == (Spin(m, now).0, [])
    ensures forall i: nat :: Count(Spin(m, now).1 + Spin(Spin(m, now).0, later).1, StartReel(i))
                             == (if i < |m.reels| then 1 else 0)
  {
    assert Spin(m, now).1 + [] == Spin(m, now).1;
  }
}
