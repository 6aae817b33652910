/**
 * The time windows of a scheduled download: offsets kept in the data model,
 * two one-shot timers per window, and the save/restart cycle between them
 * (transfers_timewindow.c).
 *
 * A timer is represented by the milliseconds it still has to run; `None` means
 * that it does not exist or has already fired.
 */
module TimeWindows {
  import opened Common

  datatype WindowStatus = Idle | Started | Ended

  datatype WindowMode = AtAnyTime | Immediately | WhenIdle | ConfirmationNeeded | UnknownMode

  /** What the ACS asked for; never changed afterwards. */
  datatype Plan = Plan(start: uint32, end: uint32, mode: WindowMode, retries: int)

  datatype Window = Window(
    plan: Plan,
    status: WindowStatus,
    maxRetries: int,
    windowStart: uint32,
    windowEnd: uint32,
    startTimer: Option<nat>,
    endTimer: Option<nat>)

  /** The two modes the plug-in acts on. */
  predicate Automatic(mode: WindowMode) {
    mode == AtAnyTime || mode == Immediately
  }

  /** `value * 1000` in `uint32_t` arithmetic. */
  function OffsetMs(seconds: uint32): (r: uint32) {
    (seconds * 1000) % TWO_TO_THE_32
  }

  function Remaining(timer: Option<nat>): (r: nat) {
    if timer.Some? then timer.value else 0
  }

  /** The window just written by addScheduleDownload, before its timers exist. */
  function NewWindow(p: Plan): (r: Window) {
    Window(p, Idle, p.retries, p.start, p.end, None, None)
  }

  function NewWindows(plans: seq<Plan>): (r: seq<Window>)
    ensures |r| == |plans|
    ensures forall i :: 0 <= i < |plans| ==> r[i] == NewWindow(plans[i])
  {
    seq(|plans|, i requires 0 <= i < |plans| => NewWindow(plans[i]))
  }

  /** Fresh timers for a process that has just started, chosen by the stored status. */
  function Arm(w: Window): (w': Window) {
    w.(startTimer := if w.status.Idle? then Some(OffsetMs(w.windowStart)) else None,
       endTimer := if w.status.Ended? then None else Some(OffsetMs(w.windowEnd)))
  }

  /** Whole seconds that fit in what a timer has left, as stored back in the data model. */
  function SavedSeconds(timer: Option<nat>): (r: uint32) {
    (Remaining(timer) / 1000) % TWO_TO_THE_32
  }

  function SaveOffsets(w: Window): (w': Window) {
    match w.status
    case Idle => w.(windowStart := SavedSeconds(w.startTimer), windowEnd := SavedSeconds(w.endTimer))
    case Started => w.(windowStart := 0, windowEnd := SavedSeconds(w.endTimer))
    case Ended => w
  }

  predicate CanElapse(w: Window, ms: nat) {
    && (w.startTimer.Some? ==> ms <= w.startTimer.value)
    && (w.endTimer.Some? ==> ms <= w.endTimer.value)
  }

  function ElapseTimer(timer: Option<nat>, ms: nat): (timer': Option<nat>)
    requires timer.Some? ==> ms <= timer.value
  {
    if timer.Some? then Some(timer.value - ms) else None
  }

  function ElapseWindow(w: Window, ms: nat): (w': Window)
    requires CanElapse(w, ms)
  {
    w.(startTimer := ElapseTimer(w.startTimer, ms), endTimer := ElapseTimer(w.endTimer, ms))
  }

  function FireStart(w: Window): (w': Window) {
    w.(status := Started, startTimer := None)
  }

  function FireEnd(w: Window): (w': Window) {
    w.(status := Ended, endTimer := None)
  }

  function MapWindows(f: Window -> Window, ws: seq<Window>): (r: seq<Window>)
    ensures |r| == |ws|
    ensures forall i :: 0 <= i < |ws| ==> r[i] == f(ws[i])
  {
    seq(|ws|, i requires 0 <= i < |ws| => f(ws[i]))
  }

  predicate CanElapseAll(ws: seq<Window>, ms: nat) {
    forall i :: 0 <= i < |ws| ==> CanElapse(ws[i], ms)
  }

  function ElapseAll(ws: seq<Window>, ms: nat): (r: seq<Window>)
    requires CanElapseAll(ws, ms)
    ensures |r| == |ws|
    ensures forall i :: 0 <= i < |ws| ==> r[i] == ElapseWindow(ws[i], ms)
  {
    seq(|ws|, i requires 0 <= i < |ws| => ElapseWindow(ws[i], ms))
  }

  // ----- What the ACS must ask for, and the single clock behind all timers -----

  /** Largest offset whose milliseconds fit in a `uint32_t`. */
  const MAX_OFFSET: int := 4294967

  /** Windows in order, not overlapping, and close enough for the millisecond conversion. */
  ghost predicate PlanOrdered(ws: seq<Window>) {
    && (forall i :: 0 <= i < |ws| ==> ws[i].plan.start < ws[i].plan.end <= MAX_OFFSET)
    && (forall i, j :: 0 <= i < j < |ws| ==> ws[i].plan.end < ws[j].plan.start)
  }

  /**
   * Every pending boundary has the same distance `clock` (in ms) from the request, and every
   * stored offset the same distance `saved` (in s).
   */
  ghost predicate WindowAt(w: Window, clock: nat, saved: nat) {
    match w.status
    case Idle =>
      && w.startTimer.Some? && w.startTimer.value == 1000 * w.plan.start - clock
      && w.endTimer.Some? && w.endTimer.value == 1000 * w.plan.end - clock
      && w.windowStart == w.plan.start - saved
      && w.windowEnd == w.plan.end - saved
    case Started =>
      && w.startTimer.None?
      && w.endTimer.Some? && w.endTimer.value == 1000 * w.plan.end - clock
      && w.windowEnd == w.plan.end - saved
    case Ended =>
      w.startTimer.None? && w.endTimer.None?
  }

  ghost predicate ClockAt(ws: seq<Window>, clock: nat, saved: nat) {
    forall i :: 0 <= i < |ws| ==> WindowAt(ws[i], clock, saved)
  }

  /** Ended windows first, then at most one that is Started, then Idle ones. */
  ghost predicate StatusesOrdered(ws: seq<Window>) {
    forall i, j :: 0 <= i < j < |ws| && !ws[j].status.Idle? ==> ws[i].status.Ended?
  }

  ghost predicate Timely(ws: seq<Window>) {
    && StatusesOrdered(ws)
    && exists clock: nat, saved: nat :: ClockAt(ws, clock, saved)
  }

  /** The millisecond conversion is exact up to MAX_OFFSET seconds and for no larger offset. */
  lemma OffsetExactIff(seconds: uint32)
    ensures OffsetMs(seconds) == seconds * 1000 <==> seconds <= MAX_OFFSET
  {
    if seconds > MAX_OFFSET {
      assert seconds * 1000 >= TWO_TO_THE_32;
    }
  }

  /** One second too far and an ordered request is armed with its end before its start. */
  lemma OffsetWrapReordersTimers()
    ensures var p := Plan(4294967, 4294968, Immediately, 0);
            && p.start < p.end
            && Arm(NewWindow(p)).endTimer.value < Arm(NewWindow(p)).startTimer.value
  {
  }

  lemma ArmKeepsClock(ws: seq<Window>, clock: nat, saved: nat)
    requires PlanOrdered(ws) && ClockAt(ws, clock, saved)
    ensures ClockAt(MapWindows(Arm, ws), 1000 * saved, saved)
  {
    forall i | 0 <= i < |ws|
      ensures WindowAt(Arm(ws[i]), 1000 * saved, saved)
    {
      var w := ws[i];
      assert WindowAt(w, clock, saved);
      if !w.status.Ended? {
        OffsetExactIff(w.windowEnd);
        OffsetExactIff(w.windowStart);
      }
    }
  }

  /** Milliseconds rounded up to whole seconds. */
  function CeilSeconds(ms: nat): (s: nat)
    ensures ms <= 1000 * s < ms + 1000
  {
    (ms + 999) / 1000
  }

  lemma FloorOfRemaining(o: nat, clock: nat)
    requires clock <= 1000 * o
    ensures (1000 * o - clock) / 1000 == o - CeilSeconds(clock)
  {
  }

  lemma SaveWindowKeepsClock(w: Window, clock: nat, saved: nat)
    requires w.plan.start < w.plan.end <= MAX_OFFSET && WindowAt(w, clock, saved)
    ensures WindowAt(SaveOffsets(w), clock, CeilSeconds(clock))
  {
    if !w.status.Ended? {
      FloorOfRemaining(w.plan.end, clock);
    }
    if w.status.Idle? {
      FloorOfRemaining(w.plan.start, clock);
    }
  }

  lemma SaveKeepsClock(ws: seq<Window>, clock: nat, saved: nat)
    requires PlanOrdered(ws) && ClockAt(ws, clock, saved)
    ensures ClockAt(MapWindows(SaveOffsets, ws), clock, CeilSeconds(clock))
  {
    forall i | 0 <= i < |ws|
      ensures WindowAt(SaveOffsets(ws[i]), clock, CeilSeconds(clock))
    {
      SaveWindowKeepsClock(ws[i], clock, saved);
    }
  }

  lemma ElapseKeepsClock(ws: seq<Window>, clock: nat, saved: nat, ms: nat)
    requires ClockAt(ws, clock, saved) && CanElapseAll(ws, ms)
    ensures ClockAt(ElapseAll(ws, ms), clock + ms, saved)
  {
    forall i | 0 <= i < |ws|
      ensures WindowAt(ElapseWindow(ws[i], ms), clock + ms, saved)
    {
      assert WindowAt(ws[i], clock, saved) && CanElapse(ws[i], ms);
    }
  }

  /**
   * A start timer can only expire once every earlier window has ended, and an end timer only
   * while its own window is the started one.
   */
  lemma TimersExpireInOrder(ws: seq<Window>, i: nat)
    requires PlanOrdered(ws) && Timely(ws) && i < |ws|
    ensures ws[i].startTimer == Some(0) ==>
              ws[i].status.Idle? && forall j :: 0 <= j < i ==> ws[j].status.Ended?
    ensures ws[i].endTimer == Some(0) ==>
              ws[i].status.Started? && forall j :: 0 <= j < i ==> ws[j].status.Ended?
  {
    var clock: nat, saved: nat :| ClockAt(ws, clock, saved);
    assert WindowAt(ws[i], clock, saved);
    forall j | 0 <= j < i && ws[i].startTimer == Some(0)
      ensures ws[j].status.Ended?
    {
      assert WindowAt(ws[j], clock, saved);
      assert ws[j].plan.end < ws[i].plan.start;
    }
  }

  lemma FireStartKeepsClock(ws: seq<Window>, clock: nat, saved: nat, i: nat)
    requires PlanOrdered(ws) && StatusesOrdered(ws) && ClockAt(ws, clock, saved)
    requires i < |ws| && ws[i].startTimer == Some(0)
    ensures var ws' := ws[i := FireStart(ws[i])];
            StatusesOrdered(ws') && ClockAt(ws', clock, saved)
  {
    TimersExpireInOrder(ws, i);
    assert WindowAt(ws[i], clock, saved);
  }

  lemma FireEndKeepsClock(ws: seq<Window>, clock: nat, saved: nat, i: nat)
    requires PlanOrdered(ws) && StatusesOrdered(ws) && ClockAt(ws, clock, saved)
    requires i < |ws| && ws[i].endTimer == Some(0)
    ensures var ws' := ws[i := FireEnd(ws[i])];
            StatusesOrdered(ws') && ClockAt(ws', clock, saved)
  {
    TimersExpireInOrder(ws, i);
    assert WindowAt(ws[i], clock, saved);
  }

  lemma FireKeepsTimely(ws: seq<Window>, i: nat)
    requires PlanOrdered(ws) && Timely(ws) && i < |ws|
    ensures ws[i].startTimer == Some(0) ==> Timely(ws[i := FireStart(ws[i])])
    ensures ws[i].endTimer == Some(0) ==> Timely(ws[i := FireEnd(ws[i])])
  {
    var clock: nat, saved: nat :| ClockAt(ws, clock, saved);
    if ws[i].startTimer == Some(0) {
      FireStartKeepsClock(ws, clock, saved, i);
    }
    if ws[i].endTimer == Some(0) {
      FireEndKeepsClock(ws, clock, saved, i);
    }
  }

  lemma NewWindowsTimely(plans: seq<Plan>)
    requires PlanOrdered(NewWindows(plans))
    ensures Timely(MapWindows(Arm, NewWindows(plans)))
  {
    var armed := MapWindows(Arm, NewWindows(plans));
    forall i | 0 <= i < |armed|
      ensures WindowAt(armed[i], 0, 0)
    {
      assert NewWindows(plans)[i].plan == plans[i];
      OffsetExactIff(plans[i].start);
      OffsetExactIff(plans[i].end);
    }
    assert ClockAt(armed, 0, 0);
  }

  lemma ElapseKeepsTimely(ws: seq<Window>, ms: nat)
    requires Timely(ws) && CanElapseAll(ws, ms)
    ensures Timely(ElapseAll(ws, ms))
  {
    var clock: nat, saved: nat :| ClockAt(ws, clock, saved);
    ElapseKeepsClock(ws, clock, saved, ms);
  }

  lemma SaveKeepsTimely(ws: seq<Window>)
    requires PlanOrdered(ws) && Timely(ws)
    ensures Timely(MapWindows(SaveOffsets, ws))
  {
    var clock: nat, saved: nat :| ClockAt(ws, clock, saved);
    SaveKeepsClock(ws, clock, saved);
  }

  lemma ArmKeepsTimely(ws: seq<Window>)
    requires PlanOrdered(ws) && Timely(ws)
    ensures Timely(MapWindows(Arm, ws))
  {
    var clock: nat, saved: nat :| ClockAt(ws, clock, saved);
    ArmKeepsClock(ws, clock, saved);
  }

  // ----- Save/restart cycles -----

  /** What can happen to the timers of one transfer while the device stops and starts cleanly. */
  datatype TimerStep = Run(ms: nat) | Start(index: nat) | End(index: nat) | SaveAndRestart

  predicate CanStep(ws: seq<Window>, step: TimerStep) {
    match step
    case Run(ms) => CanElapseAll(ws, ms)
    case Start(i) => i < |ws| && ws[i].startTimer == Some(0)
    case End(i) => i < |ws| && ws[i].endTimer == Some(0)
    case SaveAndRestart => true
  }

  function StepTimers(ws: seq<Window>, step: TimerStep): (r: seq<Window>)
    requires CanStep(ws, step)
  {
    match step
    case Run(ms) => ElapseAll(ws, ms)
    case Start(i) => ws[i := FireStart(ws[i])]
    case End(i) => ws[i := FireEnd(ws[i])]
    case SaveAndRestart => MapWindows(Arm, MapWindows(SaveOffsets, ws))
  }

  ghost predicate TimerRun(ws: seq<Window>, steps: seq<TimerStep>, ws': seq<Window>)
    decreases |steps|
  {
    if steps == [] then
      ws' == ws
    else
      CanStep(ws, steps[0]) && TimerRun(StepTimers(ws, steps[0]), steps[1..], ws')
  }

  /** Time that really passes during a run. */
  function Elapsed(steps: seq<TimerStep>): (r: nat) {
    if steps == [] then 0 else (if steps[0].Run? then steps[0].ms else 0) + Elapsed(steps[1..])
  }

  function Restarts(steps: seq<TimerStep>): (r: nat) {
    if steps == [] then 0 else (if steps[0].SaveAndRestart? then 1 else 0) + Restarts(steps[1..])
  }

  /** The boundary timers of a window that are still running, paired with the offset asked for. */
  ghost predicate PendingBoundary(w: Window, requested: uint32, ms: nat) {
    || (w.startTimer == Some(ms) && requested == w.plan.start)
    || (w.endTimer == Some(ms) && requested == w.plan.end)
  }

  /** Any two pending boundaries are exactly as far apart as in the request. */
  lemma GapsExact(ws: seq<Window>, i: nat, j: nat, r1: uint32, m1: nat, r2: uint32, m2: nat)
    requires PlanOrdered(ws) && Timely(ws) && i < |ws| && j < |ws|
    requires PendingBoundary(ws[i], r1, m1) && PendingBoundary(ws[j], r2, m2)
    ensures m1 - m2 == 1000 * (r1 - r2)
  {
    var clock: nat, saved: nat :| ClockAt(ws, clock, saved);
    assert WindowAt(ws[i], clock, saved) && WindowAt(ws[j], clock, saved);
  }

  ghost predicate SamePlans(ws: seq<Window>, ws': seq<Window>) {
    |ws'| == |ws| && forall i :: 0 <= i < |ws| ==> ws'[i].plan == ws[i].plan
  }

  /** How far one step can move the common clock. */
  predicate ClockMoves(step: TimerStep, clock: nat, clock': nat) {
    match step
    case Run(ms) => clock' == clock + ms
    case SaveAndRestart => clock <= clock' <= clock + 999
    case Start(_) => clock' == clock
    case End(_) => clock' == clock
  }

  lemma RunStepClock(ws: seq<Window>, clock: nat, saved: nat, ms: nat)
    requires StatusesOrdered(ws) && ClockAt(ws, clock, saved) && CanElapseAll(ws, ms)
    ensures SamePlans(ws, ElapseAll(ws, ms)) && StatusesOrdered(ElapseAll(ws, ms)) && ClockAt(ElapseAll(ws, ms), clock + ms, saved)
  {
    ElapseKeepsClock(ws, clock, saved, ms);
  }

  lemma RestartStepClock(ws: seq<Window>, clock: nat, saved: nat)
    requires PlanOrdered(ws) && StatusesOrdered(ws) && ClockAt(ws, clock, saved)
    ensures var ws' := MapWindows(Arm, MapWindows(SaveOffsets, ws));
            && SamePlans(ws, ws') && StatusesOrdered(ws')
            && ClockAt(ws', 1000 * CeilSeconds(clock), CeilSeconds(clock))
  {
    var saving := MapWindows(SaveOffsets, ws);
    SaveKeepsClock(ws, clock, saved);
    assert SamePlans(ws, saving) && StatusesOrdered(saving);
    ArmKeepsClock(saving, clock, CeilSeconds(clock));
  }

  lemma FireStepClock(ws: seq<Window>, clock: nat, saved: nat, i: nat)
    requires PlanOrdered(ws) && StatusesOrdered(ws) && ClockAt(ws, clock, saved) && i < |ws|
    ensures ws[i].startTimer == Some(0) ==>
              var ws' := ws[i := FireStart(ws[i])]; SamePlans(ws, ws') && StatusesOrdered(ws') && ClockAt(ws', clock, saved)
    ensures ws[i].endTimer == Some(0) ==>
              var ws' := ws[i := FireEnd(ws[i])]; SamePlans(ws, ws') && StatusesOrdered(ws') && ClockAt(ws', clock, saved)
  {
    if ws[i].startTimer == Some(0) {
      FireStartKeepsClock(ws, clock, saved, i);
    }
    if ws[i].endTimer == Some(0) {
      FireEndKeepsClock(ws, clock, saved, i);
    }
  }

  lemma StepClock(ws: seq<Window>, clock: nat, saved: nat, step: TimerStep) returns (clock': nat, saved': nat)
    requires PlanOrdered(ws) && StatusesOrdered(ws) && ClockAt(ws, clock, saved) && CanStep(ws, step)
    ensures SamePlans(ws, StepTimers(ws, step)) && StatusesOrdered(StepTimers(ws, step))
    ensures ClockAt(StepTimers(ws, step), clock', saved')
    ensures ClockMoves(step, clock, clock')
  {
    clock', saved' := clock, saved;
    match step {
      case Run(ms) =>
        clock' := clock + ms;
        RunStepClock(ws, clock, saved, ms);
      case Start(i) => FireStepClock(ws, clock, saved, i);
      case End(i) => FireStepClock(ws, clock, saved, i);
      case SaveAndRestart =>
        clock', saved' := 1000 * CeilSeconds(clock), CeilSeconds(clock);
        RestartStepClock(ws, clock, saved);
    }
  }

  lemma {:induction false} RunClock(ws: seq<Window>, clock: nat, saved: nat, steps: seq<TimerStep>, ws': seq<Window>)
      returns (clock': nat, saved': nat)
    requires PlanOrdered(ws) && ClockAt(ws, clock, saved) && StatusesOrdered(ws) && TimerRun(ws, steps, ws')
    ensures SamePlans(ws, ws') && StatusesOrdered(ws') && ClockAt(ws', clock', saved')
    ensures clock + Elapsed(steps) <= clock' <= clock + Elapsed(steps) + 999 * Restarts(steps)
    decreases |steps|
  {
    if steps == [] {
      clock', saved' := clock, saved;
    } else {
      var c, s := StepClock(ws, clock, saved, steps[0]);
      clock', saved' := RunClock(StepTimers(ws, steps[0]), c, s, steps[1..], ws');
    }
  }

  /**
   * Over any run with k clean save/restart cycles, windows starting and ending on the way, the
   * windows stay in order and a boundary still pending has lost, beyond the time that really
   * passed, between 0 and 999 ms per cycle: less than k seconds in all.
   */
  lemma CyclesShortenBoundedly(ws: seq<Window>, steps: seq<TimerStep>, ws': seq<Window>, i: nat)
    requires PlanOrdered(ws) && Timely(ws) && TimerRun(ws, steps, ws') && i < |ws|
    ensures PlanOrdered(ws') && Timely(ws') && |ws'| == |ws|
    ensures ws'[i].startTimer.Some? && ws[i].startTimer.Some? ==>
              0 <= ws[i].startTimer.value - Elapsed(steps) - ws'[i].startTimer.value <= 999 * Restarts(steps)
    ensures ws'[i].endTimer.Some? && ws[i].endTimer.Some? ==>
              0 <= ws[i].endTimer.value - Elapsed(steps) - ws'[i].endTimer.value <= 999 * Restarts(steps)
  {
    var clock: nat, saved: nat :| ClockAt(ws, clock, saved);
    var clock', saved' := RunClock(ws, clock, saved, steps, ws');
    assert WindowAt(ws[i], clock, saved) && WindowAt(ws'[i], clock', saved');
  }
}
