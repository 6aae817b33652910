/** What the ScheduleDownload engine promises over every run, restarts included. */
module TransferTheorems {
  import opened Common
  import opened TimeWindows
  import opened TransferModel
  import opened TransferProofs

  lemma ReachableGood(s: State, id: nat)
    requires Reachable(s) && id in s.transfers
    ensures Good(s.transfers[id], PendingFor(s.queue, id))
  {
    ReachableInv(s);
  }

  lemma ReachableSlotOk(s: State)
    requires Reachable(s)
    ensures SlotOk(s)
  {
    ReachableInv(s);
  }

  /** The number of StartTransfer calls never exceeds one per window plus the retries asked for. */
  lemma AttemptsWithinGrant(s: State, id: nat)
    requires Reachable(s) && id in s.transfers
    ensures s.transfers[id].attempts <= Granted(s.transfers[id].windows)
  {
    ReachableGood(s, id);
  }

  /** The slot refers to a live transfer that is neither idle nor finished, so acknowledging cannot leave it dangling. */
  lemma SlotNeverDangles(s: State)
    requires Reachable(s) && s.slot.Some?
    ensures s.slot.value in s.transfers
    ensures s.transfers[s.slot.value].status.InProgress? || s.transfers[s.slot.value].status.Failed?
    ensures !Enabled(s, Acknowledge(s.slot.value))
  {
    ReachableSlotOk(s);
  }

  /** No waiting change refers to a transfer that has been deleted. */
  lemma ChangesNeverDangle(s: State, k: nat)
    requires Reachable(s) && k < |s.queue|
    ensures s.queue[k].id in s.transfers
  {
    ReachableInv(s);
    assert QueueOk(s);
  }

  lemma DeliverTakesFreeSlot(s: State, accepted: bool)
    requires Inv(s) && s.queue != []
    requires DeliverHead(s, accepted).slot.Some? && DeliverHead(s, accepted).slot != s.slot
    ensures s.slot.None? && accepted && DeliverHead(s, accepted).slot == Some(s.queue[0].id)
    ensures var id := s.queue[0].id;
            id in s.transfers
            && DeliverHead(s, accepted).transfers[id].status.InProgress?
            && DeliverHead(s, accepted).transfers[id].attempts == s.transfers[id].attempts + 1
  {
    assert QueueOk(s);
  }

  /** An upgrade is only ever begun on an empty slot, and only by a transfer that is then in progress. */
  lemma SlotTakenOnlyWhenFree(s: State, e: Event)
    requires Reachable(s) && Enabled(s, e)
    requires Step(s, e).slot.Some? && Step(s, e).slot != s.slot
    ensures s.slot.None? && e == Deliver(true) && Step(s, e).slot == Some(s.queue[0].id)
    ensures var id := s.queue[0].id;
            id in s.transfers
            && Step(s, e).transfers[id].status.InProgress?
            && Step(s, e).transfers[id].attempts == s.transfers[id].attempts + 1
  {
    ReachableInv(s);
    match e {
      case Deliver(accepted) => DeliverTakesFreeSlot(s, accepted);
      case _ => assert false;
    }
  }

  /** Between events, the cached pair is what the rebuild loop would compute from the stored statuses. */
  lemma CacheMatchesStatuses(s: State, id: nat)
    requires Reachable(s) && s.queue == [] && id in s.transfers && PlanOrdered(s.transfers[id].windows)
    ensures s.transfers[id].info == Rebuild(s.transfers[id]).info
  {
    ReachableGood(s, id);
  }

  /** Windows open and close strictly in the order asked for, across any number of restarts. */
  lemma WindowsOpenInOrder(s: State, id: nat, index: nat)
    requires Reachable(s) && id in s.transfers && PlanOrdered(s.transfers[id].windows)
    ensures Enabled(s, StartTimer(id, index)) ==>
              && s.transfers[id].windows[index - 1].status.Idle?
              && forall j :: 0 <= j < index - 1 ==> s.transfers[id].windows[j].status.Ended?
    ensures Enabled(s, EndTimer(id, index)) ==>
              && s.transfers[id].windows[index - 1].status.Started?
              && forall j :: 0 <= j < index - 1 ==> s.transfers[id].windows[j].status.Ended?
  {
    ReachableGood(s, id);
    if HasWindow(s, id, index) {
      TimersExpireInOrder(s.transfers[id].windows, index - 1);
    }
  }

  /** Two boundaries still to come are exactly as far apart as the ACS asked, whatever restarts happened. */
  lemma BoundaryGapsSurvive(s: State, id: nat, i: nat, j: nat, r1: uint32, m1: nat, r2: uint32, m2: nat)
    requires Reachable(s) && id in s.transfers && PlanOrdered(s.transfers[id].windows)
    requires i < |s.transfers[id].windows| && j < |s.transfers[id].windows|
    requires PendingBoundary(s.transfers[id].windows[i], r1, m1) && PendingBoundary(s.transfers[id].windows[j], r2, m2)
    ensures m1 - m2 == 1000 * (r1 - r2)
  {
    ReachableGood(s, id);
    GapsExact(s.transfers[id].windows, i, j, r1, m1, r2, m2);
  }

  /** Once the last window has ended and its event is handled, the transfer is done. */
  lemma DoneOnceWindowsOver(s: State, id: nat)
    requires Reachable(s) && s.queue == [] && id in s.transfers
    requires PlanOrdered(s.transfers[id].windows) && Served(s.transfers[id])
    requires s.transfers[id].windows[|s.transfers[id].windows| - 1].status.Ended?
    ensures s.transfers[id].status.Done?
  {
    ReachableGood(s, id);
  }

  // ----- Done is final -----

  predicate SameVerdict(t: Transfer, t': Transfer) {
    t'.status == t.status && t'.faultCode == t.faultCode && t'.faultString == t.faultString && t'.attempts == t.attempts
  }

  lemma DeliverKeepsVerdict(s: State, accepted: bool, id: nat)
    requires Inv(s) && s.queue != [] && id in s.transfers && s.transfers[id].status.Done?
    ensures id in DeliverHead(s, accepted).transfers
    ensures SameVerdict(s.transfers[id], DeliverHead(s, accepted).transfers[id])
  {
    assert QueueOk(s);
  }

  lemma NotifyKeepsVerdict(s: State, n: Notification, id: nat)
    requires SlotOk(s) && id in s.transfers && s.transfers[id].status.Done?
    ensures id in Notified(s, n).transfers && SameVerdict(s.transfers[id], Notified(s, n).transfers[id])
  {
  }

  lemma RestartKeepsVerdict(t: Transfer, id: nat, imageStatus: Option<string>)
    requires t.status.Done?
    ensures SameVerdict(t, RestartOne(t, id, imageStatus).t)
  {
  }

  lemma TimerKeepsVerdict(s: State, id: nat, index: nat, w: Window, change: Change, other: nat)
    requires HasWindow(s, id, index) && other in s.transfers
    ensures other in SetWindow(s, id, index, w, change).transfers
    ensures SameVerdict(s.transfers[other], SetWindow(s, id, index, w, change).transfers[other])
  {
  }

  lemma StepKeepsVerdict(s: State, e: Event, id: nat)
    requires Inv(s) && Enabled(s, e) && id in s.transfers && s.transfers[id].status.Done? && e != Acknowledge(id)
    ensures id in Step(s, e).transfers && SameVerdict(s.transfers[id], Step(s, e).transfers[id])
  {
    match e {
      case Deliver(accepted) => DeliverKeepsVerdict(s, accepted, id);
      case Notify(n) => NotifyKeepsVerdict(s, n, id);
      case Restart(order, images) => RestartKeepsVerdict(s.transfers[id], id, ImageStatus(images, id));
      case StartTimer(x, i) => TimerKeepsVerdict(s, x, i, FireStart(s.transfers[x].windows[i - 1]), WindowStarted(x, i), id);
      case EndTimer(x, i) => TimerKeepsVerdict(s, x, i, FireEnd(s.transfers[x].windows[i - 1]), WindowEnded(x, i), id);
      case Add(_, _, _) =>
      case Elapse(_) =>
      case Save =>
      case Acknowledge(_) =>
    }
  }

  lemma {:induction false} RunKeepsVerdict(s: State, events: seq<Event>, s': State, id: nat)
    requires Inv(s) && Runs(s, events, s') && id in s.transfers && s.transfers[id].status.Done?
    requires Acknowledge(id) !in events
    ensures id in s'.transfers && SameVerdict(s.transfers[id], s'.transfers[id])
    decreases |events|
  {
    if events != [] {
      StepKeepsVerdict(s, events[0], id);
      StepKeepsInv(s, events[0]);
      RunKeepsVerdict(Step(s, events[0]), events[1..], s', id);
    }
  }

  /** A finished transfer keeps its status, fault and attempt count until it is acknowledged. */
  lemma DoneIsFinal(s: State, events: seq<Event>, s': State, id: nat)
    requires Reachable(s) && Runs(s, events, s') && id in s.transfers && s.transfers[id].status.Done?
    requires Acknowledge(id) !in events
    ensures id in s'.transfers && SameVerdict(s.transfers[id], s'.transfers[id])
  {
    ReachableInv(s);
    RunKeepsVerdict(s, events, s', id);
  }

  predicate Succeeded(t: Transfer) {
    t.status.Done? && t.faultCode == 0
  }

  lemma DeliverNeverSucceeds(s: State, accepted: bool, id: nat)
    requires Inv(s) && s.queue != [] && id in s.transfers && !s.transfers[id].status.Done?
    ensures id in DeliverHead(s, accepted).transfers && !Succeeded(DeliverHead(s, accepted).transfers[id])
  {
    assert QueueOk(s);
    assert Good(s.transfers[id], PendingFor(s.queue, id));
  }

  lemma NotifyNeverSucceeds(s: State, n: Notification, id: nat)
    requires Inv(s) && id in s.transfers && !s.transfers[id].status.Done?
    ensures id in Notified(s, n).transfers && !Succeeded(Notified(s, n).transfers[id])
  {
  }

  /** What a restart makes of an upgrade that was in progress, with the window that was open. */
  predicate ConcludedWell(t: Transfer, imageStatus: Option<string>) {
    && imageStatus == Some("Active") && t.status.InProgress?
    && LastTouched(t.windows).1 && Automatic(CurrentMode(Rebuild(t)))
  }

  lemma RestartOneSucceedsIff(t: Transfer, id: nat, imageStatus: Option<string>)
    requires Shape(t) && !t.status.Done?
    ensures Succeeded(RestartOne(t, id, imageStatus).t) <==> ConcludedWell(t, imageStatus)
  {
  }

  /**
   * A transfer finishes without fault exactly when a restart finds its upgrade in progress, the
   * new image active, and a window open in which the plug-in acts by itself.
   */
  lemma SuccessOnlyAcrossRestart(s: State, e: Event, id: nat)
    requires Reachable(s) && Enabled(s, e) && id in s.transfers && id in Step(s, e).transfers && !s.transfers[id].status.Done?
    ensures Succeeded(Step(s, e).transfers[id]) <==> e.Restart? && ConcludedWell(s.transfers[id], ImageStatus(e.images, id))
  {
    ReachableInv(s);
    match e {
      case Deliver(accepted) => DeliverNeverSucceeds(s, accepted, id);
      case Restart(order, images) =>
        assert Good(s.transfers[id], PendingFor(s.queue, id));
        RestartOneSucceedsIff(s.transfers[id], id, ImageStatus(images, id));
      case Notify(n) => NotifyNeverSucceeds(s, n, id);
      case Add(_, _, _) =>
      case Elapse(_) =>
      case StartTimer(_, _) =>
      case EndTimer(_, _) =>
      case Save =>
      case Acknowledge(_) =>
    }
  }

  // ----- What a reported failure leads to -----

  /** A window is open by the cached pair, and its mode is one the plug-in acts in. */
  predicate WithinOpenWindow(t: Transfer) {
    && t.info.withinTimeWindow && 1 <= t.info.lastTimeWindow <= |t.windows|
    && t.windows[t.info.lastTimeWindow - 1].plan.mode in {AtAnyTime, Immediately}
  }

  /**
   * The bus reports that the upgrade in the slot failed. The slot is freed; if the upgrade was in
   * progress in a window the plug-in acts in, the failure is announced once, with the fault that
   * the boot log tells. A transfer that had already failed is announced no second time.
   */
  lemma ReportedFailureFreesSlot(s: State, n: Notification)
    requires Reachable(s) && s.queue == [] && s.slot.Some?
    requires n.status in {Some("DownloadFailed"), Some("ValidationFailed"), Some("InstallationFailed"), Some("ActivationFailed")}
    ensures var id, s' := s.slot.value, Step(s, Notify(n));
            && id in s.transfers && id in s'.transfers && s'.slot.None?
            && var t, t' := s.transfers[id], s'.transfers[id];
               && t'.windows == t.windows && t'.attempts == t.attempts
               && (WithinOpenWindow(t) ==>
                     && t'.status.Failed? && s'.queue == (if t.status.InProgress? then [TransferFailed(id)] else [])
                     && t'.faultCode == (if n.bootFailureLog == Some("Protocol not supported") then 9013 else 9010)
                     && t'.faultString == (if n.bootFailureLog.Some? then n.bootFailureLog.value else ""))
               && (!WithinOpenWindow(t) ==> t' == t && s'.queue == [])
  {
    ReachableSlotOk(s);
  }

  /**
   * Handling the announced failure: with retries left, one of them is spent on a new attempt at
   * once, which fails and is announced again if the slot is taken or the download is refused;
   * without, the transfer is done if this was its last window, and otherwise waits for the next
   * one. Nothing else of the transfer changes.
   */
  lemma FailureSpendsOneRetry(s: State, accepted: bool)
    requires Reachable(s) && s.queue != [] && s.queue[0].TransferFailed?
    requires var id := s.queue[0].id;
             id in s.transfers ==> WithinOpenWindow(s.transfers[id])
    ensures var id, s' := s.queue[0].id, Step(s, Deliver(accepted));
            && id in s.transfers && id in s'.transfers
            && var t, t' := s.transfers[id], s'.transfers[id];
               var last := t.info.lastTimeWindow - 1;
               && 0 <= last < |t.windows| == |t'.windows|
               && var retries, begins := t.windows[last].maxRetries, s.slot.None? && accepted;
                  && t'.windows == t.windows[last := t.windows[last].(maxRetries := if retries > 0 then retries - 1 else retries)]
                  && t'.attempts == t.attempts + (if retries > 0 then 1 else 0)
                  && (s'.queue == s.queue[1..] + if retries > 0 && !begins then [TransferFailed(id)] else [])
                  && (t'.faultCode == if retries > 0 && !begins then 9002 else t.faultCode)
                  && (t'.status == if retries > 0 then (if begins then InProgress else Failed)
                                   else if last + 1 == |t.windows| then Done else Failed)
                  && (s'.slot == if retries > 0 && begins then Some(id)
                                 else if t'.status.Done? && s.slot == Some(id) then None else s.slot)
  {
    ReachableInv(s);
    assert QueueOk(s) && s.queue[0].id in s.transfers;
    var id := s.queue[0].id;
    ReachableGood(s, id);
    assert s.transfers[id].status.Failed?;
  }
}
