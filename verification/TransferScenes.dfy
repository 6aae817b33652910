/** Runs that show what can happen to a single transfer with two windows. */
module TransferScenes {
  import opened Common
  import opened TimeWindows
  import opened TransferModel
  import opened TransferProofs

  lemma {:induction false} RunsAppend(s: State, events: seq<Event>, s': State, e: Event)
    requires Runs(s, events, s') && Enabled(s', e)
    ensures Runs(s, events + [e], Step(s', e))
    decreases |events|
  {
    if events == [] {
      assert [e][1..] == [];
    } else {
      assert (events + [e])[1..] == events[1..] + [e];
      RunsAppend(Step(s, events[0]), events[1..], s', e);
    }
  }

  lemma Reach(s: State, e: Event, s': State)
    requires Reachable(s) && Enabled(s, e) && Step(s, e) == s'
    ensures Reachable(s')
  {
    var events :| Runs(Init(), events, s);
    RunsAppend(Init(), events, s, e);
  }

  /** How far a firmware transfer has got, apart from its windows. */
  function Upgrade(status: TransferStatus, faultCode: nat, faultString: string, last: nat, within: bool, attempts: nat): (t: Transfer) {
    Transfer(FirmwareImage, [], status, faultCode, faultString, Info(2, last, within), attempts)
  }

  const NEW_UPGRADE: Transfer := Upgrade(TransferIdle, 0, "", 0, false, 0)

  /** The transfer `t` alone, with its two windows. */
  function Scene(t: Transfer, first: Window, second: Window, slot: Option<nat>, queue: seq<Change>): (s: State) {
    State(map[0 := t.(windows := [first, second])], slot, queue)
  }

  /** A window that the plug-in acts in. */
  function Timed(start: uint32, end: uint32, retries: int, status: WindowStatus, startTimer: Option<nat>, endTimer: Option<nat>): (w: Window) {
    Window(Plan(start, end, Immediately, retries), status, retries, start, end, startTimer, endTimer)
  }

  lemma SceneAdded(p1: Plan, p2: Plan)
    requires p1.start <= MAX_OFFSET && p1.end <= MAX_OFFSET && p2.start <= MAX_OFFSET && p2.end <= MAX_OFFSET
    ensures var e := Add(0, FirmwareImage, [p1, p2]);
            Enabled(Init(), e) && Step(Init(), e) == Scene(NEW_UPGRADE, Arm(NewWindow(p1)), Arm(NewWindow(p2)), None, [])
  {
    var plans, armed := [p1, p2], [Arm(NewWindow(p1)), Arm(NewWindow(p2))];
    assert MapWindows(Arm, NewWindows(plans)) == armed;
    assert LastTouched(armed) == (0, false);
    var t := NEW_UPGRADE.(windows := armed);
    assert NewTransfer(FirmwareImage, plans) == t;
    assert map[][0 := t] == map[0 := t];
  }

  lemma SceneElapses(t: Transfer, w1: Window, w2: Window, slot: Option<nat>, ms: nat)
    requires CanElapse(w1, ms) && CanElapse(w2, ms)
    ensures var s := Scene(t, w1, w2, slot, []);
            Enabled(s, Elapse(ms)) && Step(s, Elapse(ms)) == Scene(t, ElapseWindow(w1, ms), ElapseWindow(w2, ms), slot, [])
  {
    var s := Scene(t, w1, w2, slot, []);
    assert ElapseAll([w1, w2], ms) == [ElapseWindow(w1, ms), ElapseWindow(w2, ms)];
    assert Step(s, Elapse(ms)).transfers == Scene(t, ElapseWindow(w1, ms), ElapseWindow(w2, ms), slot, []).transfers;
  }

  lemma SceneChanges(t: Transfer, w1: Window, w2: Window, slot: Option<nat>, w: Window, change: Change)
    ensures var s := Scene(t, w1, w2, slot, []);
            && (w.status != w1.status ==> SetWindow(s, 0, 1, w, change) == Scene(t, w, w2, slot, [change]))
            && (w.status != w2.status ==> SetWindow(s, 0, 2, w, change) == Scene(t, w1, w, slot, [change]))
  {
    var t1 := t.(windows := [w1, w2]);
    assert t1.windows[0 := w] == [w, w2] && t1.windows[1 := w] == [w1, w];
    assert map[0 := t1][0 := t.(windows := [w, w2])] == map[0 := t.(windows := [w, w2])];
    assert map[0 := t1][0 := t.(windows := [w1, w])] == map[0 := t.(windows := [w1, w])];
  }

  lemma SceneStarts(t: Transfer, w1: Window, w2: Window, slot: Option<nat>)
    ensures var s := Scene(t, w1, w2, slot, []);
            && (w1.startTimer == Some(0) && w1.status.Idle? ==>
                  Enabled(s, StartTimer(0, 1)) && Step(s, StartTimer(0, 1)) == Scene(t, FireStart(w1), w2, slot, [WindowStarted(0, 1)]))
            && (w2.startTimer == Some(0) && w2.status.Idle? ==>
                  Enabled(s, StartTimer(0, 2)) && Step(s, StartTimer(0, 2)) == Scene(t, w1, FireStart(w2), slot, [WindowStarted(0, 2)]))
  {
    SceneChanges(t, w1, w2, slot, FireStart(w1), WindowStarted(0, 1));
    SceneChanges(t, w1, w2, slot, FireStart(w2), WindowStarted(0, 2));
  }

  lemma SceneEnds(t: Transfer, w1: Window, w2: Window, slot: Option<nat>)
    ensures var s := Scene(t, w1, w2, slot, []);
            && (w1.endTimer == Some(0) && w1.status.Started? ==>
                  Enabled(s, EndTimer(0, 1)) && Step(s, EndTimer(0, 1)) == Scene(t, FireEnd(w1), w2, slot, [WindowEnded(0, 1)]))
            && (w2.endTimer == Some(0) && w2.status.Started? ==>
                  Enabled(s, EndTimer(0, 2)) && Step(s, EndTimer(0, 2)) == Scene(t, w1, FireEnd(w2), slot, [WindowEnded(0, 2)]))
  {
    SceneChanges(t, w1, w2, slot, FireEnd(w1), WindowEnded(0, 1));
    SceneChanges(t, w1, w2, slot, FireEnd(w2), WindowEnded(0, 2));
  }

  /** Handling the oldest change is what its handler makes of the transfer. */
  lemma SceneDelivers(t: Transfer, w1: Window, w2: Window, slot: Option<nat>, change: Change, accepted: bool, o: Outcome)
    requires change.id == 0 && o.t.windows == [w1, w2]
    requires var t1 := t.(windows := [w1, w2]);
             match change
             case WindowStarted(_, i) => o == OnWindowStarted(t1, slot, 0, i, accepted)
             case WindowEnded(_, _) => o == OnWindowEnded(t1, slot, 0, accepted)
             case TransferFailed(_) => o == OnTransferFailed(t1, slot, 0, accepted)
    ensures var s := Scene(t, w1, w2, slot, [change]);
            Enabled(s, Deliver(accepted)) &&
            Step(s, Deliver(accepted)) == Scene(o.t, w1, w2, o.slot, if o.failed then [TransferFailed(0)] else [])
  {
    var s := Scene(t, w1, w2, slot, [change]);
    assert s.transfers[0 := o.t] == map[0 := o.t.(windows := [w1, w2])];
    assert s.queue[1..] == [];
  }

  /** The transfer has been created, and its windows are armed. */
  lemma SceneBegins(p1: Plan, p2: Plan)
    requires p1.start <= MAX_OFFSET && p1.end <= MAX_OFFSET && p2.start <= MAX_OFFSET && p2.end <= MAX_OFFSET
    ensures Reachable(Scene(NEW_UPGRADE, Arm(NewWindow(p1)), Arm(NewWindow(p2)), None, []))
  {
    assert Runs(Init(), [], Init());
    SceneAdded(p1, p2);
    Reach(Init(), Add(0, FirmwareImage, [p1, p2]), Scene(NEW_UPGRADE, Arm(NewWindow(p1)), Arm(NewWindow(p2)), None, []));
  }

  lemma TimePasses(t: Transfer, w1: Window, w2: Window, slot: Option<nat>, ms: nat, w1': Window, w2': Window)
    requires Reachable(Scene(t, w1, w2, slot, []))
    requires CanElapse(w1, ms) && CanElapse(w2, ms) && w1' == ElapseWindow(w1, ms) && w2' == ElapseWindow(w2, ms)
    ensures Reachable(Scene(t, w1', w2', slot, []))
  {
    SceneElapses(t, w1, w2, slot, ms);
    Reach(Scene(t, w1, w2, slot, []), Elapse(ms), Scene(t, w1', w2', slot, []));
  }

  lemma FirstChanges(t: Transfer, w1: Window, w2: Window, slot: Option<nat>, w: Window, change: Change)
    requires Reachable(Scene(t, w1, w2, slot, []))
    requires || (w1.startTimer == Some(0) && w1.status.Idle? && w == FireStart(w1) && change == WindowStarted(0, 1))
             || (w1.endTimer == Some(0) && w1.status.Started? && w == FireEnd(w1) && change == WindowEnded(0, 1))
    ensures Reachable(Scene(t, w, w2, slot, [change]))
  {
    SceneStarts(t, w1, w2, slot);
    SceneEnds(t, w1, w2, slot);
    Reach(Scene(t, w1, w2, slot, []), if change.WindowStarted? then StartTimer(0, 1) else EndTimer(0, 1), Scene(t, w, w2, slot, [change]));
  }

  lemma SecondChanges(t: Transfer, w1: Window, w2: Window, slot: Option<nat>, w: Window, change: Change)
    requires Reachable(Scene(t, w1, w2, slot, []))
    requires || (w2.startTimer == Some(0) && w2.status.Idle? && w == FireStart(w2) && change == WindowStarted(0, 2))
             || (w2.endTimer == Some(0) && w2.status.Started? && w == FireEnd(w2) && change == WindowEnded(0, 2))
    ensures Reachable(Scene(t, w1, w, slot, [change]))
  {
    SceneStarts(t, w1, w2, slot);
    SceneEnds(t, w1, w2, slot);
    Reach(Scene(t, w1, w2, slot, []), if change.WindowStarted? then StartTimer(0, 2) else EndTimer(0, 2), Scene(t, w1, w, slot, [change]));
  }

  lemma ChangeHandled(t: Transfer, w1: Window, w2: Window, slot: Option<nat>, change: Change, accepted: bool, o: Outcome)
    requires Reachable(Scene(t, w1, w2, slot, [change])) && change.id == 0 && o.t.windows == [w1, w2]
    requires var t1 := t.(windows := [w1, w2]);
             match change
             case WindowStarted(_, i) => o == OnWindowStarted(t1, slot, 0, i, accepted)
             case WindowEnded(_, _) => o == OnWindowEnded(t1, slot, 0, accepted)
             case TransferFailed(_) => o == OnTransferFailed(t1, slot, 0, accepted)
    ensures Reachable(Scene(o.t, w1, w2, o.slot, if o.failed then [TransferFailed(0)] else []))
  {
    SceneDelivers(t, w1, w2, slot, change, accepted, o);
    Reach(Scene(t, w1, w2, slot, [change]), Deliver(accepted), Scene(o.t, w1, w2, o.slot, if o.failed then [TransferFailed(0)] else []));
  }

  // ----- An upgrade that is still running when the second window opens -----

  const RUNNING: Transfer := Upgrade(InProgress, 0, "", 1, true, 1)

  /** The first window opens and its download is accepted. */
  lemma FirstWindowOpens(r1: int, r2: int)
    ensures Reachable(Scene(RUNNING, Timed(1, 2, r1, Started, None, Some(1000)), Timed(3, 4, r2, Idle, Some(2000), Some(3000)), Some(0), []))
  {
    SceneBegins(Plan(1, 2, Immediately, r1), Plan(3, 4, Immediately, r2));
    var w1, w2 := Timed(1, 2, r1, Idle, Some(0), Some(1000)), Timed(3, 4, r2, Idle, Some(2000), Some(3000));
    TimePasses(NEW_UPGRADE, Timed(1, 2, r1, Idle, Some(1000), Some(2000)), Timed(3, 4, r2, Idle, Some(3000), Some(4000)), None, 1000, w1, w2);
    var open := Timed(1, 2, r1, Started, None, Some(1000));
    FirstChanges(NEW_UPGRADE, w1, w2, None, open, WindowStarted(0, 1));
    ChangeHandled(NEW_UPGRADE, open, w2, None, WindowStarted(0, 1), true, Outcome(RUNNING.(windows := [open, w2]), Some(0), false));
    assert Scene(RUNNING.(windows := [open, w2]), open, w2, Some(0), []) == Scene(RUNNING, open, w2, Some(0), []);
  }

  /** It ends with the upgrade running, and the second one opens. */
  lemma UpgradeMayBeAbandoned(r1: int, r2: int) returns (s: State)
    ensures Reachable(s) && 0 in s.transfers && s.slot == Some(0) && s.queue == [WindowStarted(0, |s.transfers[0].windows|)]
    ensures var t := s.transfers[0];
            Served(t) && t.fileType.FirmwareImage? && t.status.InProgress? && PlanOrdered(t.windows)
  {
    FirstWindowOpens(r1, r2);
    var due, over := Timed(1, 2, r1, Started, None, Some(0)), Timed(1, 2, r1, Ended, None, None);
    var second, ready := Timed(3, 4, r2, Idle, Some(1000), Some(2000)), Timed(3, 4, r2, Idle, Some(0), Some(1000));
    TimePasses(RUNNING, Timed(1, 2, r1, Started, None, Some(1000)), Timed(3, 4, r2, Idle, Some(2000), Some(3000)), Some(0), 1000, due, second);
    FirstChanges(RUNNING, due, second, Some(0), over, WindowEnded(0, 1));
    var after := RUNNING.(info := Info(2, 1, false), windows := [over, second]);
    ChangeHandled(RUNNING, over, second, Some(0), WindowEnded(0, 1), true, Outcome(after, Some(0), false));
    TimePasses(after, over, second, Some(0), 1000, over, ready);
    SecondChanges(after, over, ready, Some(0), Timed(3, 4, r2, Started, None, Some(1000)), WindowStarted(0, 2));
    s := Scene(after, over, Timed(3, 4, r2, Started, None, Some(1000)), Some(0), [WindowStarted(0, 2)]);
  }

  // ----- A window within the other -----

  /** The second window, from 1 s to 5 s, opens before the first, from 2 s to 3 s: its upgrade is then counted as the first one's. */
  lemma InnerWindowOpens(r2: int)
    ensures Reachable(Scene(Upgrade(Failed, FAULT_INTERNAL_ERROR, "Failed to perform upgrade", 1, true, 2),
                            Timed(2, 3, 0, Started, None, Some(1000)), Timed(1, 5, r2, Started, None, Some(3000)), Some(0), [TransferFailed(0)]))
  {
    SceneBegins(Plan(2, 3, Immediately, 0), Plan(1, 5, Immediately, r2));
    var w1, w2 := Timed(2, 3, 0, Idle, Some(1000), Some(2000)), Timed(1, 5, r2, Idle, Some(0), Some(4000));
    TimePasses(NEW_UPGRADE, Timed(2, 3, 0, Idle, Some(2000), Some(3000)), Timed(1, 5, r2, Idle, Some(1000), Some(5000)), None, 1000, w1, w2);
    var outer := Timed(1, 5, r2, Started, None, Some(4000));
    SecondChanges(NEW_UPGRADE, w1, w2, None, outer, WindowStarted(0, 2));
    var running := Upgrade(InProgress, 0, "", 2, true, 1).(windows := [w1, outer]);
    ChangeHandled(NEW_UPGRADE, w1, outer, None, WindowStarted(0, 2), true, Outcome(running, Some(0), false));
    var due, later := Timed(2, 3, 0, Idle, Some(0), Some(1000)), Timed(1, 5, r2, Started, None, Some(3000));
    TimePasses(running, w1, outer, Some(0), 1000, due, later);
    var inner := Timed(2, 3, 0, Started, None, Some(1000));
    FirstChanges(running, due, later, Some(0), inner, WindowStarted(0, 1));
    var failed := Upgrade(Failed, FAULT_INTERNAL_ERROR, "Failed to perform upgrade", 1, true, 2).(windows := [inner, later]);
    ChangeHandled(running, inner, later, Some(0), WindowStarted(0, 1), true, Outcome(failed, Some(0), true));
  }

  /** Both windows end without anything completing the transfer, although it is served. */
  lemma OverlapLeavesUnfinished(r2: int) returns (s: State)
    ensures Reachable(s) && s.queue == [] && 0 in s.transfers
    ensures var t := s.transfers[0];
            && Served(t) && !PlanOrdered(t.windows) && !t.status.Done?
            && forall i :: 0 <= i < |t.windows| ==> t.windows[i].status.Ended?
  {
    InnerWindowOpens(r2);
    var failed := Upgrade(Failed, FAULT_INTERNAL_ERROR, "Failed to perform upgrade", 1, true, 2);
    var inner, outer := Timed(2, 3, 0, Started, None, Some(1000)), Timed(1, 5, r2, Started, None, Some(3000));
    ChangeHandled(failed, inner, outer, Some(0), TransferFailed(0), true, Outcome(failed.(windows := [inner, outer]), Some(0), false));
    s := InnerWindowEnds(failed.(windows := [inner, outer]), r2);
  }

  lemma InnerWindowEnds(t: Transfer, r2: int) returns (s: State)
    requires t == Upgrade(Failed, FAULT_INTERNAL_ERROR, "Failed to perform upgrade", 1, true, 2).(windows := t.windows)
    requires Reachable(Scene(t, Timed(2, 3, 0, Started, None, Some(1000)), Timed(1, 5, r2, Started, None, Some(3000)), Some(0), []))
    ensures Reachable(s) && s.queue == [] && 0 in s.transfers
    ensures var t := s.transfers[0];
            && Served(t) && !PlanOrdered(t.windows) && !t.status.Done?
            && forall i :: 0 <= i < |t.windows| ==> t.windows[i].status.Ended?
  {
    var due, outer := Timed(2, 3, 0, Started, None, Some(0)), Timed(1, 5, r2, Started, None, Some(2000));
    TimePasses(t, Timed(2, 3, 0, Started, None, Some(1000)), Timed(1, 5, r2, Started, None, Some(3000)), Some(0), 1000, due, outer);
    var over := Timed(2, 3, 0, Ended, None, None);
    FirstChanges(t, due, outer, Some(0), over, WindowEnded(0, 1));
    var after := t.(info := Info(2, 1, false), windows := [over, outer]);
    ChangeHandled(t, over, outer, Some(0), WindowEnded(0, 1), true, Outcome(after, Some(0), false));
    TimePasses(after, over, outer, Some(0), 2000, over, Timed(1, 5, r2, Started, None, Some(0)));
    SecondChanges(after, over, Timed(1, 5, r2, Started, None, Some(0)), Some(0), Timed(1, 5, r2, Ended, None, None), WindowEnded(0, 2));
    var ended := after.(windows := [over, Timed(1, 5, r2, Ended, None, None)]);
    ChangeHandled(after, over, Timed(1, 5, r2, Ended, None, None), Some(0), WindowEnded(0, 2), true, Outcome(ended, Some(0), false));
    s := Scene(ended, over, Timed(1, 5, r2, Ended, None, None), Some(0), []);
  }
}
