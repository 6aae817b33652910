/** Which transfers finish, what frees the firmware slot, and why no retry is lost. */
module TransferConclusions {
  import opened Common
  import opened TimeWindows
  import opened TransferModel
  import opened TransferProofs
  import opened TransferTheorems

  // ----- Only served transfers finish with a fault -----

  predicate Justified(t: Transfer) {
    t.status.Done? ==> Served(t) || t.faultCode == 0
  }

  ghost predicate AllJustified(s: State) {
    forall id :: id in s.transfers ==> Justified(s.transfers[id])
  }

  lemma HandlersJustify(t: Transfer, slot: Option<nat>, id: nat, i: nat, accepted: bool)
    requires Justified(t) && t.info.numberOfTimeWindow == |t.windows|
    ensures Justified(OnWindowStarted(t, slot, id, i, accepted).t)
    ensures Justified(OnWindowEnded(t, slot, id, accepted).t)
  {
  }

  lemma FailureJustifies(t: Transfer, slot: Option<nat>, id: nat, accepted: bool)
    requires t.status.Failed? && t.info.numberOfTimeWindow == |t.windows|
    ensures Justified(OnTransferFailed(t, slot, id, accepted).t)
  {
  }

  lemma DeliverJustifies(s: State, accepted: bool)
    requires s.queue != [] && s.queue[0].id in s.transfers && AllJustified(s)
    requires var t := s.transfers[s.queue[0].id];
             t.info.numberOfTimeWindow == |t.windows| && (s.queue[0].TransferFailed? ==> t.status.Failed?)
    ensures AllJustified(DeliverHead(s, accepted))
  {
    var t := s.transfers[s.queue[0].id];
    match s.queue[0] {
      case WindowStarted(id, i) => HandlersJustify(t, s.slot, id, i, accepted);
      case WindowEnded(id, i) => HandlersJustify(t, s.slot, id, i, accepted);
      case TransferFailed(id) => FailureJustifies(t, s.slot, id, accepted);
    }
  }

  lemma DeliverKeepsJustified(s: State, accepted: bool)
    requires Inv(s) && AllJustified(s) && s.queue != []
    ensures AllJustified(DeliverHead(s, accepted))
  {
    assert QueueOk(s);
    assert Good(s.transfers[s.queue[0].id], PendingFor(s.queue, s.queue[0].id));
    DeliverJustifies(s, accepted);
  }

  lemma NotifyKeepsJustified(s: State, n: Notification)
    requires AllJustified(s)
    ensures AllJustified(Notified(s, n))
  {
  }

  lemma RestartKeepsJustified(t: Transfer, id: nat, imageStatus: Option<string>)
    requires Shape(t) && Justified(t)
    ensures Justified(RestartOne(t, id, imageStatus).t)
  {
  }

  lemma TimerKeepsJustified(s: State, id: nat, index: nat, w: Window, change: Change)
    requires AllJustified(s) && HasWindow(s, id, index) && w.plan == s.transfers[id].windows[index - 1].plan
    ensures AllJustified(SetWindow(s, id, index, w, change))
  {
  }

  lemma RestartedJustified(s: State, order: seq<nat>, images: map<nat, string>)
    requires Inv(s) && s.queue == [] && AllJustified(s)
    ensures AllJustified(Restarted(s, order, images))
  {
    forall id | id in s.transfers
      ensures Justified(Restarted(s, order, images).transfers[id])
    {
      assert Shape(s.transfers[id]) by {
        assert Good(s.transfers[id], PendingFor(s.queue, id));
      }
      RestartKeepsJustified(s.transfers[id], id, ImageStatus(images, id));
    }
  }

  lemma ClockKeepsJustified(t: Transfer, ws: seq<Window>)
    requires Justified(t) && |ws| == |t.windows| && forall k :: 0 <= k < |ws| ==> ws[k].plan == t.windows[k].plan
    ensures Justified(t.(windows := ws))
  {
  }

  lemma ElapseKeepsJustified(s: State, ms: nat)
    requires Enabled(s, Elapse(ms)) && AllJustified(s)
    ensures AllJustified(Step(s, Elapse(ms)))
  {
    forall id | id in s.transfers
      ensures Justified(Step(s, Elapse(ms)).transfers[id])
    {
      ClockKeepsJustified(s.transfers[id], ElapseAll(s.transfers[id].windows, ms));
    }
  }

  lemma SaveKeepsJustified(s: State)
    requires AllJustified(s)
    ensures AllJustified(SaveAll(s))
  {
    forall id | id in s.transfers
      ensures Justified(SaveAll(s).transfers[id])
    {
      ClockKeepsJustified(s.transfers[id], MapWindows(SaveOffsets, s.transfers[id].windows));
    }
  }

  lemma AddKeepsJustified(s: State, id: nat, fileType: FileType, plans: seq<Plan>)
    requires Enabled(s, Add(id, fileType, plans)) && AllJustified(s)
    ensures AllJustified(Step(s, Add(id, fileType, plans)))
  {
  }

  lemma AcknowledgeKeepsJustified(s: State, id: nat)
    requires Enabled(s, Acknowledge(id)) && AllJustified(s)
    ensures AllJustified(Step(s, Acknowledge(id)))
  {
  }

  lemma TimerStepKeepsJustified(s: State, e: Event)
    requires Enabled(s, e) && AllJustified(s) && (e.StartTimer? || e.EndTimer?)
    ensures AllJustified(Step(s, e))
  {
    var w := s.transfers[e.id].windows[e.index - 1];
    if e.StartTimer? {
      TimerKeepsJustified(s, e.id, e.index, FireStart(w), WindowStarted(e.id, e.index));
    } else {
      TimerKeepsJustified(s, e.id, e.index, FireEnd(w), WindowEnded(e.id, e.index));
    }
  }

  lemma StepKeepsJustified(s: State, e: Event)
    requires Inv(s) && Enabled(s, e) && AllJustified(s)
    ensures AllJustified(Step(s, e))
  {
    match e {
      case Deliver(accepted) => DeliverKeepsJustified(s, accepted);
      case Notify(n) => NotifyKeepsJustified(s, n);
      case Restart(order, images) => RestartedJustified(s, order, images);
      case StartTimer(_, _) => TimerStepKeepsJustified(s, e);
      case EndTimer(_, _) => TimerStepKeepsJustified(s, e);
      case Add(id, fileType, plans) => AddKeepsJustified(s, id, fileType, plans);
      case Elapse(ms) => ElapseKeepsJustified(s, ms);
      case Save => SaveKeepsJustified(s);
      case Acknowledge(id) => AcknowledgeKeepsJustified(s, id);
    }
  }

  lemma {:induction false} RunKeepsJustified(s: State, events: seq<Event>, s': State)
    requires Inv(s) && AllJustified(s) && Runs(s, events, s')
    ensures AllJustified(s')
    decreases |events|
  {
    if events != [] {
      StepKeepsJustified(s, events[0]);
      StepKeepsInv(s, events[0]);
      RunKeepsJustified(Step(s, events[0]), events[1..], s');
    }
  }

  /** A transfer that has finished was served in its last window, or finished without fault. */
  lemma ReachableJustified(s: State, id: nat)
    requires Reachable(s) && id in s.transfers
    ensures Justified(s.transfers[id])
  {
    var events :| Runs(Init(), events, s);
    RunKeepsJustified(Init(), events, s);
  }

  /** The last window has ended. */
  predicate Over(t: Transfer) {
    t.windows != [] && t.windows[|t.windows| - 1].status.Ended?
  }

  /**
   * Once the last window is over and all changes are handled, a transfer that no restart has
   * concluded without fault is finished exactly if the plug-in acts in that window and knows the
   * type of the file.
   */
  lemma FinishedIffServed(s: State, id: nat)
    requires Reachable(s) && s.queue == [] && id in s.transfers && PlanOrdered(s.transfers[id].windows)
    requires Over(s.transfers[id]) && !Succeeded(s.transfers[id])
    ensures s.transfers[id].status.Done? <==> Served(s.transfers[id])
  {
    ReachableJustified(s, id);
    if Served(s.transfers[id]) {
      DoneOnceWindowsOver(s, id);
    }
  }

  // ----- The others stay unfinished -----

  ghost predicate LeftOpen(t: Transfer) {
    Over(t) && PlanOrdered(t.windows) && !Served(t) && !t.status.Done?
  }

  lemma StillOpen(t: Transfer, t': Transfer)
    requires LeftOpen(t) && !t'.status.Done? && t'.fileType == t.fileType && |t'.windows| == |t.windows|
    requires forall k :: 0 <= k < |t.windows| ==> t'.windows[k].plan == t.windows[k].plan
    requires t'.windows[|t.windows| - 1].status.Ended?
    ensures LeftOpen(t')
  {
  }

  /** Whatever change is handled, a transfer that is not served does not finish. */
  lemma HandleUnserved(t: Transfer, slot: Option<nat>, id: nat, accepted: bool)
    requires !Served(t) && !t.status.Done? && t.info.numberOfTimeWindow == |t.windows|
    ensures var t' := HandleTransfer(t, slot, id, accepted).t;
            t'.windows == t.windows && t'.fileType == t.fileType && !t'.status.Done?
  {
  }

  lemma FailUnserved(t: Transfer, slot: Option<nat>, id: nat, accepted: bool)
    requires !Served(t) && !t.status.Done? && t.info.numberOfTimeWindow == |t.windows|
    ensures var t' := OnTransferFailed(t, slot, id, accepted).t;
            && |t'.windows| == |t.windows| && t'.fileType == t.fileType && !t'.status.Done?
            && forall k :: 0 <= k < |t.windows| ==> t'.windows[k].plan == t.windows[k].plan && t'.windows[k].status == t.windows[k].status
  {
  }

  lemma HandlersLeaveOpen(t: Transfer, slot: Option<nat>, id: nat, i: nat, accepted: bool)
    requires LeftOpen(t) && t.info.numberOfTimeWindow == |t.windows|
    ensures LeftOpen(OnWindowStarted(t, slot, id, i, accepted).t)
    ensures LeftOpen(OnWindowEnded(t, slot, id, accepted).t)
  {
    var t1, t2 := t.(info := t.info.(withinTimeWindow := true, lastTimeWindow := i)), t.(info := t.info.(withinTimeWindow := false));
    HandleUnserved(t1, slot, id, accepted);
    HandleUnserved(t2, slot, id, accepted);
    StillOpen(t, HandleTransfer(t1, slot, id, accepted).t);
    StillOpen(t, HandleTransfer(t2, slot, id, accepted).t);
  }

  lemma FailureLeavesOpen(t: Transfer, slot: Option<nat>, id: nat, accepted: bool)
    requires LeftOpen(t) && t.info.numberOfTimeWindow == |t.windows|
    ensures LeftOpen(OnTransferFailed(t, slot, id, accepted).t)
  {
    FailUnserved(t, slot, id, accepted);
    StillOpen(t, OnTransferFailed(t, slot, id, accepted).t);
  }

  lemma DeliverLeavesOpen(s: State, accepted: bool, id: nat)
    requires s.queue != [] && id in s.transfers && LeftOpen(s.transfers[id])
    requires s.transfers[id].info.numberOfTimeWindow == |s.transfers[id].windows|
    ensures id in DeliverHead(s, accepted).transfers && LeftOpen(DeliverHead(s, accepted).transfers[id])
  {
    if s.queue[0].id == id {
      var t := s.transfers[id];
      match s.queue[0] {
        case WindowStarted(_, i) => HandlersLeaveOpen(t, s.slot, id, i, accepted);
        case WindowEnded(_, i) => HandlersLeaveOpen(t, s.slot, id, i, accepted);
        case TransferFailed(_) => FailureLeavesOpen(t, s.slot, id, accepted);
      }
    }
  }

  lemma RestartUnserved(t: Transfer, id: nat, imageStatus: Option<string>)
    requires Over(t) && !t.status.Done?
    ensures var t' := RestartOne(t, id, imageStatus).t;
            && |t'.windows| == |t.windows| && t'.fileType == t.fileType && !t'.status.Done?
            && forall k :: 0 <= k < |t.windows| ==> t'.windows[k].plan == t.windows[k].plan && t'.windows[k].status == t.windows[k].status
  {
    assert LastTouched(t.windows) == (|t.windows|, false);
  }

  lemma RestartLeavesOpen(t: Transfer, id: nat, imageStatus: Option<string>)
    requires LeftOpen(t)
    ensures LeftOpen(RestartOne(t, id, imageStatus).t)
  {
    RestartUnserved(t, id, imageStatus);
    StillOpen(t, RestartOne(t, id, imageStatus).t);
  }

  lemma ClockLeavesOpen(t: Transfer, ws: seq<Window>)
    requires LeftOpen(t) && |ws| == |t.windows|
    requires forall k :: 0 <= k < |ws| ==> ws[k].plan == t.windows[k].plan
    requires ws[|ws| - 1].status.Ended?
    ensures LeftOpen(t.(windows := ws))
  {
  }

  /** All its windows are over, so it has no timers left. */
  lemma OpenHasNoTimers(t: Transfer, i: nat)
    requires Good(t, NoPending) && LeftOpen(t) && i < |t.windows|
    ensures t.windows[i].startTimer != Some(0) && t.windows[i].endTimer != Some(0)
  {
    assert Orderly(t, NoPending);
    TimersExpireInOrder(t.windows, i);
    assert i < |t.windows| - 1 ==> t.windows[i].status.Ended?;
  }

  lemma TimerLeavesOpen(s: State, id: nat, index: nat, w: Window, change: Change, other: nat)
    requires HasWindow(s, id, index) && other in s.transfers && LeftOpen(s.transfers[other]) && id != other
    ensures other in SetWindow(s, id, index, w, change).transfers
    ensures LeftOpen(SetWindow(s, id, index, w, change).transfers[other])
  {
  }

  lemma NotifyLeavesOpen(s: State, n: Notification, id: nat)
    requires id in s.transfers && LeftOpen(s.transfers[id])
    ensures id in Notified(s, n).transfers && LeftOpen(Notified(s, n).transfers[id])
  {
    var t := s.transfers[id];
    ClockLeavesOpen(t, MapWindows(SaveOffsets, t.windows));
  }

  lemma StepLeavesOpen(s: State, e: Event, id: nat)
    requires Inv(s) && Enabled(s, e) && id in s.transfers && LeftOpen(s.transfers[id])
    ensures id in Step(s, e).transfers && LeftOpen(Step(s, e).transfers[id])
  {
    var t := s.transfers[id];
    match e {
      case Deliver(accepted) =>
        assert Good(t, PendingFor(s.queue, id));
        DeliverLeavesOpen(s, accepted, id);
      case Notify(n) => NotifyLeavesOpen(s, n, id);
      case Restart(order, images) => RestartLeavesOpen(t, id, ImageStatus(images, id));
      case StartTimer(x, i) => QuietStepLeavesOpen(s, e, id);
      case EndTimer(x, i) => QuietStepLeavesOpen(s, e, id);
      case Add(_, _, _) =>
      case Elapse(ms) => QuietStepLeavesOpen(s, e, id);
      case Save => QuietStepLeavesOpen(s, e, id);
      case Acknowledge(_) =>
    }
  }

  lemma QuietStepLeavesOpen(s: State, e: Event, id: nat)
    requires Inv(s) && Enabled(s, e) && id in s.transfers && LeftOpen(s.transfers[id])
    requires e.StartTimer? || e.EndTimer? || e.Elapse? || e.Save?
    ensures id in Step(s, e).transfers && LeftOpen(Step(s, e).transfers[id])
  {
    var t := s.transfers[id];
    if e.Elapse? {
      ClockLeavesOpen(t, ElapseAll(t.windows, e.ms));
    } else if e.Save? {
      ClockLeavesOpen(t, MapWindows(SaveOffsets, t.windows));
    } else {
      assert Good(t, PendingFor(s.queue, id));
      TimerStepLeavesOpen(s, e, id);
    }
  }

  lemma TimerStepLeavesOpen(s: State, e: Event, id: nat)
    requires Enabled(s, e) && (e.StartTimer? || e.EndTimer?)
    requires id in s.transfers && LeftOpen(s.transfers[id]) && Good(s.transfers[id], NoPending)
    ensures id in Step(s, e).transfers && LeftOpen(Step(s, e).transfers[id])
  {
    var w := s.transfers[e.id].windows[e.index - 1];
    if e.id == id {
      OpenHasNoTimers(s.transfers[id], e.index - 1);
    } else if e.StartTimer? {
      TimerLeavesOpen(s, e.id, e.index, FireStart(w), WindowStarted(e.id, e.index), id);
    } else {
      TimerLeavesOpen(s, e.id, e.index, FireEnd(w), WindowEnded(e.id, e.index), id);
    }
  }

  lemma {:induction false} RunLeavesOpen(s: State, events: seq<Event>, s': State, id: nat)
    requires Inv(s) && Runs(s, events, s') && id in s.transfers && LeftOpen(s.transfers[id])
    ensures id in s'.transfers && LeftOpen(s'.transfers[id])
    decreases |events|
  {
    if events != [] {
      StepLeavesOpen(s, events[0], id);
      StepKeepsInv(s, events[0]);
      RunLeavesOpen(Step(s, events[0]), events[1..], s', id);
    }
  }

  /** A transfer that is not served and whose last window is over stays unfinished, and undeleted, in every run. */
  lemma UnservedStaysOpen(s: State, events: seq<Event>, s': State, id: nat)
    requires Reachable(s) && Runs(s, events, s') && id in s.transfers && LeftOpen(s.transfers[id])
    ensures id in s'.transfers && LeftOpen(s'.transfers[id])
  {
    ReachableInv(s);
    RunLeavesOpen(s, events, s', id);
  }

  // ----- What frees the slot -----

  /** A handler frees a taken slot only for its own transfer, and exactly when it leaves that finished. */
  predicate FreesIff(id: nat, slot: Option<nat>, o: Outcome) {
    && (o.slot == None || o.slot == slot)
    && (o.slot == None <==> slot == Some(id) && o.t.status.Done?)
  }

  lemma HandlersFreeIff(t: Transfer, slot: Option<nat>, id: nat, i: nat, accepted: bool)
    requires slot.Some? && (slot == Some(id) ==> t.fileType.FirmwareImage? && !t.status.Done?)
    ensures FreesIff(id, slot, OnWindowStarted(t, slot, id, i, accepted))
    ensures FreesIff(id, slot, OnWindowEnded(t, slot, id, accepted))
  {
  }

  lemma FailureFreesIff(t: Transfer, slot: Option<nat>, id: nat, accepted: bool)
    requires slot.Some? && Shape(t) && (slot == Some(id) ==> t.fileType.FirmwareImage? && !t.status.Done?)
    ensures FreesIff(id, slot, OnTransferFailed(t, slot, id, accepted))
  {
  }

  lemma DeliverFreesSlotIff(s: State, accepted: bool)
    requires s.queue != [] && s.slot.Some? && SlotOk(s) && s.queue[0].id in s.transfers && Shape(s.transfers[s.queue[0].id])
    ensures var s' := DeliverHead(s, accepted);
            && s.slot.value in s'.transfers
            && (s'.slot == None <==> s'.transfers[s.slot.value].status.Done?)
            && (s'.slot == None || s'.slot == s.slot)
  {
    var t := s.transfers[s.queue[0].id];
    match s.queue[0] {
      case WindowStarted(id, i) => HandlersFreeIff(t, s.slot, id, i, accepted);
      case WindowEnded(id, i) => HandlersFreeIff(t, s.slot, id, i, accepted);
      case TransferFailed(id) => FailureFreesIff(t, s.slot, id, accepted);
    }
  }

  predicate ReportsFailure(e: Event) {
    e.Notify? && e.notification.status.Some? && IsFailureStatus(e.notification.status.value)
  }

  /**
   * The slot is given up exactly by a restart, by a reported failure, and by a change whose handling
   * finishes the transfer that holds it, and it never passes from one transfer to another. In the
   * last case nothing was heard of the download, which may still be running.
   */
  lemma SlotReleasedIff(s: State, e: Event)
    requires Reachable(s) && Enabled(s, e) && s.slot.Some?
    ensures Step(s, e).slot == None || Step(s, e).slot == s.slot
    ensures Step(s, e).slot == None <==>
            || e.Restart? || ReportsFailure(e)
            || (e.Deliver? && s.slot.value in Step(s, e).transfers && Step(s, e).transfers[s.slot.value].status.Done?)
  {
    ReachableInv(s);
    match e {
      case Deliver(accepted) =>
        assert QueueOk(s) && SlotOk(s);
        assert Good(s.transfers[s.queue[0].id], PendingFor(s.queue, s.queue[0].id));
        DeliverFreesSlotIff(s, accepted);
      case Notify(n) => assert SlotOk(s);
      case _ =>
    }
  }

  // ----- No retry is lost -----

  /** Failed, in an open window the plug-in acts in, with retries left. */
  predicate MayRetry(t: Transfer) {
    && t.status.Failed? && t.info.withinTimeWindow && Automatic(CurrentMode(t))
    && t.windows[t.info.lastTimeWindow - 1].maxRetries > 0
  }

  ghost predicate RetryWaits(s: State, id: nat)
    requires id in s.transfers
  {
    PlanOrdered(s.transfers[id].windows) && MayRetry(s.transfers[id]) ==>
      || TransferFailed(id) in s.queue
      || (s.queue != [] && s.queue[0].WindowStarted? && s.queue[0].id == id)
  }

  ghost predicate AllRetriesWait(s: State) {
    forall id :: id in s.transfers ==> RetryWaits(s, id)
  }

  /** A handler that leaves a transfer able to retry has announced its failure. */
  lemma HandlersAnnounce(t: Transfer, slot: Option<nat>, id: nat, i: nat, accepted: bool)
    requires Shape(t) && 1 <= i <= |t.windows|
    ensures var o := OnWindowStarted(t, slot, id, i, accepted); MayRetry(o.t) ==> o.failed
    ensures var o := OnWindowEnded(t, slot, id, accepted); !MayRetry(o.t)
    ensures var o := OnTransferFailed(t, slot, id, accepted); MayRetry(o.t) ==> o.failed || t.windows == o.t.windows
  {
  }

  lemma FailedHandlerAnnounces(t: Transfer, slot: Option<nat>, id: nat, accepted: bool)
    requires Shape(t)
    ensures var o := OnTransferFailed(t, slot, id, accepted); MayRetry(o.t) ==> o.failed
  {
  }

  lemma DeliverKeepsRetries(s: State, accepted: bool)
    requires Inv(s) && s.queue != [] && AllRetriesWait(s)
    ensures AllRetriesWait(DeliverHead(s, accepted))
  {
    assert QueueOk(s);
    var head, s' := s.queue[0], DeliverHead(s, accepted);
    var t := s.transfers[head.id];
    assert Good(t, PendingFor(s.queue, head.id));
    match head {
      case WindowStarted(id, i) => HandlersAnnounce(t, s.slot, id, i, accepted);
      case WindowEnded(id, i) => HandlersAnnounce(t, s.slot, id, i, accepted);
      case TransferFailed(id) => FailedHandlerAnnounces(t, s.slot, id, accepted);
    }
    forall x | x in s'.transfers
      ensures RetryWaits(s', x)
    {
      if x == head.id {
        assert MayRetry(s'.transfers[x]) ==> s'.queue[|s'.queue| - 1] == TransferFailed(x);
      } else {
        assert RetryWaits(s, x) && s'.transfers[x] == s.transfers[x];
        assert TransferFailed(x) in s.queue ==> TransferFailed(x) in s.queue[1..];
      }
    }
  }

  lemma {:induction false} FailureIsListed(ts: map<nat, Transfer>, order: seq<nat>, images: map<nat, string>, id: nat)
    requires id in order && FailsAtRestart(ts, id, images)
    ensures TransferFailed(id) in FailedAtRestart(ts, order, images)
  {
    var init, last := order[..|order| - 1], order[|order| - 1];
    if id != last {
      assert id in init;
      FailureIsListed(ts, init, images, id);
    }
  }

  lemma RestartAnnounces(t: Transfer, id: nat, imageStatus: Option<string>)
    requires Good(t, NoPending) && PlanOrdered(t.windows)
    ensures var o := RestartOne(t, id, imageStatus); MayRetry(o.t) ==> o.failed || MayRetry(t)
  {
    assert Rebuild(t).info == t.info by {
      assert Orderly(t, NoPending);
    }
    RebuiltAnnounces(t, id, imageStatus);
  }

  lemma RebuiltAnnounces(t: Transfer, id: nat, imageStatus: Option<string>)
    requires Rebuild(t).info == t.info
    ensures var o := RestartOne(t, id, imageStatus); MayRetry(o.t) ==> o.failed || MayRetry(t)
  {
  }

  lemma RestartKeepsPlans(t: Transfer, id: nat, imageStatus: Option<string>)
    ensures PlanOrdered(RestartOne(t, id, imageStatus).t.windows) ==> PlanOrdered(t.windows)
  {
    var ws' := RestartOne(t, id, imageStatus).t.windows;
    assert forall k :: 0 <= k < |t.windows| ==> ws'[k].plan == t.windows[k].plan;
  }

  lemma RestartOneWaits(s: State, order: seq<nat>, images: map<nat, string>, id: nat)
    requires s.queue == [] && id in s.transfers && id in order && RetryWaits(s, id) && Good(s.transfers[id], NoPending)
    ensures RetryWaits(Restarted(s, order, images), id)
  {
    var t, o := s.transfers[id], RestartOne(s.transfers[id], id, ImageStatus(images, id));
    RestartKeepsPlans(t, id, ImageStatus(images, id));
    if PlanOrdered(o.t.windows) && MayRetry(o.t) {
      RestartAnnounces(t, id, ImageStatus(images, id));
      FailureIsListed(s.transfers, order, images, id);
    }
  }

  lemma RestartKeepsRetries(s: State, order: seq<nat>, images: map<nat, string>)
    requires Inv(s) && s.queue == [] && Lists(order, s.transfers.Keys) && AllRetriesWait(s)
    ensures AllRetriesWait(Restarted(s, order, images))
  {
    forall id | id in s.transfers
      ensures RetryWaits(Restarted(s, order, images), id)
    {
      assert Good(s.transfers[id], PendingFor(s.queue, id)) && RetryWaits(s, id);
      RestartOneWaits(s, order, images, id);
    }
  }

  /** With no change waiting, nothing that leaves what a retry depends on as it was can make one wait. */
  lemma QuietKeepsRetries(s: State, s': State)
    requires s.queue == [] && AllRetriesWait(s)
    requires forall id :: id in s'.transfers && id in s.transfers ==> SameRetry(s.transfers[id], s'.transfers[id])
    requires forall id :: id in s'.transfers && id !in s.transfers ==> !s'.transfers[id].status.Failed?
    ensures AllRetriesWait(s')
  {
    forall id | id in s'.transfers
      ensures RetryWaits(s', id)
    {
      if id in s.transfers {
        assert RetryWaits(s, id) && SameRetry(s.transfers[id], s'.transfers[id]);
        assert PlanOrdered(s'.transfers[id].windows) ==> PlanOrdered(s.transfers[id].windows);
      }
    }
  }

  ghost predicate SameRetry(t: Transfer, t': Transfer) {
    && t'.status == t.status && t'.info == t.info && |t'.windows| == |t.windows|
    && forall k :: 0 <= k < |t.windows| ==> t'.windows[k].plan == t.windows[k].plan && t'.windows[k].maxRetries == t.windows[k].maxRetries
  }

  lemma UpgradeAnnounces(t: Transfer, slot: Option<nat>, id: nat, code: nat, text: string)
    requires code != 0
    ensures var o := UpgradeDone(t, slot, id, code, text); MayRetry(o.t) ==> o.failed || MayRetry(t)
    ensures UpgradeDone(t, slot, id, code, text).t.windows == t.windows
  {
  }

  lemma UpgradedKeepsRetries(s: State, id: nat, code: nat, text: string)
    requires s.queue == [] && id in s.transfers && AllRetriesWait(s) && code != 0
    ensures AllRetriesWait(Upgraded(s, id, code, text).(slot := None))
  {
    var s' := Upgraded(s, id, code, text).(slot := None);
    UpgradeAnnounces(s.transfers[id], s.slot, id, code, text);
    forall x | x in s'.transfers
      ensures RetryWaits(s', x)
    {
      assert RetryWaits(s, x);
    }
  }

  lemma SaveKeepsRetries(s: State)
    requires s.queue == [] && AllRetriesWait(s)
    ensures AllRetriesWait(SaveAll(s))
  {
    QuietKeepsRetries(s, SaveAll(s));
  }

  lemma NotifyKeepsRetries(s: State, n: Notification)
    requires s.queue == [] && AllRetriesWait(s)
    ensures AllRetriesWait(Notified(s, n))
  {
    if s.slot.None? || n.status.None? || s.slot.value !in s.transfers {
    } else if IsFailureStatus(n.status.value) {
      var log := if n.bootFailureLog.Some? then n.bootFailureLog.value else "";
      UpgradedKeepsRetries(s, s.slot.value, FailureCode(log), log);
    } else if n.status.value == "Validating" {
      SaveKeepsRetries(s);
    }
  }

  lemma TimerKeepsRetries(s: State, id: nat, index: nat, w: Window, change: Change)
    requires s.queue == [] && AllRetriesWait(s) && HasWindow(s, id, index)
    requires var was := s.transfers[id].windows[index - 1]; w.plan == was.plan && w.maxRetries == was.maxRetries
    ensures AllRetriesWait(SetWindow(s, id, index, w, change))
  {
    QuietKeepsRetries(s, SetWindow(s, id, index, w, change));
  }

  lemma ElapseKeepsRetries(s: State, ms: nat)
    requires Enabled(s, Elapse(ms)) && AllRetriesWait(s)
    ensures AllRetriesWait(Step(s, Elapse(ms)))
  {
    QuietKeepsRetries(s, Step(s, Elapse(ms)));
  }

  lemma AddKeepsRetries(s: State, id: nat, fileType: FileType, plans: seq<Plan>)
    requires Enabled(s, Add(id, fileType, plans)) && AllRetriesWait(s)
    ensures AllRetriesWait(Step(s, Add(id, fileType, plans)))
  {
    QuietKeepsRetries(s, Step(s, Add(id, fileType, plans)));
  }

  lemma AcknowledgeKeepsRetries(s: State, id: nat)
    requires Enabled(s, Acknowledge(id)) && AllRetriesWait(s)
    ensures AllRetriesWait(Step(s, Acknowledge(id)))
  {
    QuietKeepsRetries(s, Step(s, Acknowledge(id)));
  }

  lemma TimerStepKeepsRetries(s: State, e: Event)
    requires Enabled(s, e) && AllRetriesWait(s) && (e.StartTimer? || e.EndTimer?)
    ensures AllRetriesWait(Step(s, e))
  {
    var w := s.transfers[e.id].windows[e.index - 1];
    if e.StartTimer? {
      TimerKeepsRetries(s, e.id, e.index, FireStart(w), WindowStarted(e.id, e.index));
    } else {
      TimerKeepsRetries(s, e.id, e.index, FireEnd(w), WindowEnded(e.id, e.index));
    }
  }

  lemma StepKeepsRetries(s: State, e: Event)
    requires Inv(s) && Enabled(s, e) && AllRetriesWait(s)
    ensures AllRetriesWait(Step(s, e))
  {
    match e {
      case Deliver(accepted) => DeliverKeepsRetries(s, accepted);
      case Notify(n) => NotifyKeepsRetries(s, n);
      case Restart(order, images) => RestartKeepsRetries(s, order, images);
      case Add(id, fileType, plans) => AddKeepsRetries(s, id, fileType, plans);
      case StartTimer(_, _) => TimerStepKeepsRetries(s, e);
      case EndTimer(_, _) => TimerStepKeepsRetries(s, e);
      case Elapse(ms) => ElapseKeepsRetries(s, ms);
      case Save => SaveKeepsRetries(s);
      case Acknowledge(id) => AcknowledgeKeepsRetries(s, id);
    }
  }

  lemma {:induction false} RunKeepsRetries(s: State, events: seq<Event>, s': State)
    requires Inv(s) && AllRetriesWait(s) && Runs(s, events, s')
    ensures AllRetriesWait(s')
    decreases |events|
  {
    if events != [] {
      StepKeepsRetries(s, events[0]);
      StepKeepsInv(s, events[0]);
      RunKeepsRetries(Step(s, events[0]), events[1..], s');
    }
  }

  /**
   * In every reachable state, a failed transfer in an open window the plug-in acts in, with retries
   * left, has the change waiting that will use one: its failure, or the start of its next window.
   */
  lemma NoRetryIsLost(s: State, id: nat)
    requires Reachable(s) && id in s.transfers && PlanOrdered(s.transfers[id].windows) && MayRetry(s.transfers[id])
    ensures TransferFailed(id) in s.queue || (s.queue != [] && s.queue[0].WindowStarted? && s.queue[0].id == id)
  {
    var events :| Runs(Init(), events, s);
    RunKeepsRetries(Init(), events, s);
    assert RetryWaits(s, id);
  }
}
