/**
 * What single events do to a transfer, the slot and the queue in every reachable state, spelled
 * out in the modes, statuses and fault codes of the data model.
 */
module TransferSteps {
  import opened Common
  import opened TimeWindows
  import opened TransferModel
  import opened TransferProofs
  import opened TransferTheorems

  // ----- Restart -----

  /** The stored statuses show window `i` (from 0) open, and its mode is one the plug-in acts in. */
  predicate OpenAt(ws: seq<Window>, i: nat) {
    && i < |ws| && ws[i].status.Started? && ws[i].plan.mode in {AtAnyTime, Immediately}
    && forall j :: i < j < |ws| ==> ws[j].status.Idle?
  }

  ghost predicate Concluded(t: Transfer) {
    t.status.InProgress? && exists i :: OpenAt(t.windows, i)
  }

  lemma OpenIsTouched(t: Transfer)
    ensures (exists i :: OpenAt(t.windows, i)) <==> Rebuild(t).info.withinTimeWindow && Automatic(CurrentMode(Rebuild(t)))
  {
    var last := LastTouched(t.windows).0;
    if last > 0 && Rebuild(t).info.withinTimeWindow && Automatic(CurrentMode(Rebuild(t))) {
      assert OpenAt(t.windows, last - 1);
    }
    if i: nat :| OpenAt(t.windows, i) {
      assert last == i + 1;
    }
  }

  lemma RestartOneVerdict(t: Transfer, id: nat, image: Option<string>)
    requires Shape(t)
    ensures var o := RestartOne(t, id, image);
            && o.t.fileType == t.fileType && o.t.attempts == t.attempts
            && o.t.status == (if !Concluded(t) then t.status else if image == Some("Active") then Done else Failed)
            && o.t.faultCode == (if !Concluded(t) then t.faultCode else if image == Some("Active") then 0 else 9002)
            && o.t.faultString == (if !Concluded(t) then t.faultString
                                   else match image
                                        case None => "Internal failure"
                                        case Some(status) => if status == "Active" then "" else "Failed to apply firmware")
            && (o.failed <==> Concluded(t) && image != Some("Active"))
  {
    OpenIsTouched(t);
  }

  /** The changes announce transfers among the first `n` of `order`; `at` tells which, in order. */
  ghost predicate AnnouncedAt(order: seq<nat>, n: nat, queue: seq<Change>, at: seq<nat>) {
    && |at| == |queue|
    && (forall k :: 0 <= k < |at| ==> at[k] < n <= |order| && queue[k] == TransferFailed(order[at[k]]))
    && (forall j, k :: 0 <= j < k < |at| ==> at[j] < at[k])
  }

  lemma OneMoreAnnounced(order: seq<nat>, n: nat, queue: seq<Change>, at: seq<nat>)
    requires n < |order| && AnnouncedAt(order, n, queue, at)
    ensures AnnouncedAt(order, n + 1, queue, at) && AnnouncedAt(order, n + 1, queue + [TransferFailed(order[n])], at + [n])
  {
  }

  lemma NextAnnounced(ts: map<nat, Transfer>, order: seq<nat>, images: map<nat, string>, n: nat)
    requires n < |order|
    ensures var before, after := FailedAtRestart(ts, order[..n], images), FailedAtRestart(ts, order[..n + 1], images);
            after == before || after == before + [TransferFailed(order[n])]
  {
    assert order[..n + 1][..n] == order[..n] && order[..n + 1][n] == order[n];
  }

  lemma {:induction false} AnnouncedOnce(ts: map<nat, Transfer>, order: seq<nat>, images: map<nat, string>, n: nat) returns (at: seq<nat>)
    requires n <= |order|
    ensures AnnouncedAt(order, n, FailedAtRestart(ts, order[..n], images), at)
  {
    at := [];
    if n > 0 {
      at := AnnouncedOnce(ts, order, images, n - 1);
      var before := FailedAtRestart(ts, order[..n - 1], images);
      OneMoreAnnounced(order, n - 1, before, at);
      NextAnnounced(ts, order, images, n - 1);
      if FailedAtRestart(ts, order[..n], images) != before {
        at := at + [n - 1];
      }
    }
  }

  lemma {:induction false} AnnouncedIff(ts: map<nat, Transfer>, order: seq<nat>, images: map<nat, string>, id: nat)
    ensures TransferFailed(id) in FailedAtRestart(ts, order, images) <==> id in order && FailsAtRestart(ts, id, images)
  {
    if order != [] {
      var n := |order| - 1;
      AnnouncedIff(ts, order[..n], images, id);
      assert order == order[..n] + [order[n]];
    }
  }

  /**
   * A restart concludes exactly the upgrades that were in progress in an open window the plug-in
   * acts in: well if the bus says that the image is active, and otherwise, also if it says nothing,
   * with fault 9002. Every other transfer keeps its verdict.
   */
  lemma RestartVerdict(s: State, order: seq<nat>, images: map<nat, string>, id: nat)
    requires Reachable(s) && Enabled(s, Restart(order, images)) && id in s.transfers
    ensures var s' := Step(s, Restart(order, images));
            && s'.slot.None? && s'.transfers.Keys == s.transfers.Keys
            && var t, t', active := s.transfers[id], s'.transfers[id], id in images && images[id] == "Active";
               && t'.fileType == t.fileType && t'.attempts == t.attempts
               && t'.status == (if !Concluded(t) then t.status else if active then Done else Failed)
               && t'.faultCode == (if !Concluded(t) then t.faultCode else if active then 0 else 9002)
               && t'.faultString == (if !Concluded(t) then t.faultString else if active then ""
                                     else if id in images then "Failed to apply firmware" else "Internal failure")
               && (TransferFailed(id) in s'.queue <==> Concluded(t) && !active)
  {
    ReachableGood(s, id);
    RestartOneVerdict(s.transfers[id], id, ImageStatus(images, id));
    AnnouncedIff(s.transfers, order, images, id);
  }

  /** The failures found at a restart are announced once each, in the order in which the instances are gone through. */
  lemma RestartAnnounces(s: State, order: seq<nat>, images: map<nat, string>) returns (at: seq<nat>)
    requires Enabled(s, Restart(order, images))
    ensures AnnouncedAt(order, |order|, Step(s, Restart(order, images)).queue, at)
  {
    at := AnnouncedOnce(s.transfers, order, images, |order|);
    assert order[..|order|] == order;
  }

  /** A window after a restart: its stored fields, and timers from the stored offsets for what is still to come. */
  predicate Rearmed(w: Window, w': Window) {
    w' == w.(startTimer := if w.status.Idle? then Some(w.windowStart * 1000 % 0x1_0000_0000) else None,
             endTimer := if w.status.Ended? then None else Some(w.windowEnd * 1000 % 0x1_0000_0000))
  }

  lemma UpgradeKeepsWindows(t: Transfer, slot: Option<nat>, id: nat, code: nat, text: string)
    ensures var o := UpgradeDone(t, slot, id, code, text);
            o.t.windows == t.windows && o.t.info == t.info
  {
  }

  /**
   * A transfer picked up again: every window with fresh timers, and the cached pair found again
   * as the highest window that is not idle, and whether that one is open.
   */
  predicate Resumed(t: Transfer, t': Transfer) {
    && |t'.windows| == |t.windows| && (forall i :: 0 <= i < |t.windows| ==> Rearmed(t.windows[i], t'.windows[i]))
    && var last := t'.info.lastTimeWindow;
       && t'.info.numberOfTimeWindow == |t.windows| && last <= |t.windows|
       && (forall i :: last <= i < |t.windows| ==> t.windows[i].status.Idle?)
       && (last > 0 ==> !t.windows[last - 1].status.Idle?)
       && (t'.info.withinTimeWindow <==> last > 0 && t.windows[last - 1].status.Started?)
  }

  lemma RestartOneRearms(t: Transfer, id: nat, image: Option<string>)
    ensures var t' := RestartOne(t, id, image).t;
            && t'.info == Rebuild(t).info && |t'.windows| == |t.windows|
            && forall i :: 0 <= i < |t.windows| ==> Rearmed(t.windows[i], t'.windows[i])
  {
    UpgradeKeepsWindows(Rebuild(t), None, id, PendingFault(image).0, PendingFault(image).1);
  }

  lemma RestartOneResumes(t: Transfer, id: nat, image: Option<string>)
    ensures Resumed(t, RestartOne(t, id, image).t)
  {
    RestartOneRearms(t, id, image);
    assert Rebuild(t).info == Info(|t.windows|, LastTouched(t.windows).0, LastTouched(t.windows).1);
  }

  lemma RestartResumes(s: State, order: seq<nat>, images: map<nat, string>, id: nat)
    requires Enabled(s, Restart(order, images)) && id in s.transfers
    ensures Resumed(s.transfers[id], Step(s, Restart(order, images)).transfers[id])
  {
    var t' := Step(s, Restart(order, images)).transfers[id];
    assert t' == RestartOne(s.transfers[id], id, ImageStatus(images, id)).t;
    RestartOneResumes(s.transfers[id], id, ImageStatus(images, id));
    assert Resumed(s.transfers[id], t');
  }

  // ----- Delivery of a change -----

  lemma HeadIsKnown(s: State)
    requires Reachable(s) && s.queue != []
    ensures s.queue[0].id in s.transfers
    ensures s.queue[0].WindowStarted? || s.queue[0].WindowEnded? ==> 1 <= s.queue[0].index <= |s.transfers[s.queue[0].id].windows|
  {
    ReachableInv(s);
    assert QueueOk(s);
  }

  /** Every other transfer is as it was. */
  ghost predicate OthersKept(s: State, s': State, id: nat) {
    && s'.transfers.Keys == s.transfers.Keys
    && forall x :: x in s.transfers && x != id ==> s'.transfers[x] == s.transfers[x]
  }

  lemma StartedOne(t: Transfer, slot: Option<nat>, id: nat, index: nat, accepted: bool)
    requires Shape(t) && 1 <= index <= |t.windows|
    ensures var o := OnWindowStarted(t, slot, id, index, accepted);
            var tries := !t.status.Done? && t.windows[index - 1].plan.mode in {AtAnyTime, Immediately};
            var t' := t.(info := Info(|t.windows|, index, true), attempts := t.attempts + if tries then 1 else 0);
            && (!tries || t.fileType != FirmwareImage ==> o == Outcome(t', slot, false))
            && (tries && t.fileType == FirmwareImage ==>
                  o == if slot == None && accepted then Outcome(t'.(status := InProgress), Some(id), false)
                       else Outcome(t'.(status := Failed, faultCode := 9002, faultString := "Failed to perform upgrade"), slot, true))
  {
  }

  /**
   * A window has opened. A transfer that is not done makes one attempt, if the mode is one the
   * plug-in acts in: for a firmware image it takes the free slot if the download is accepted, and
   * fails at once otherwise; for other files nothing follows.
   */
  lemma WindowStartDecides(s: State, accepted: bool)
    requires Reachable(s) && s.queue != [] && s.queue[0].WindowStarted?
    ensures var id, index, s' := s.queue[0].id, s.queue[0].index, Step(s, Deliver(accepted));
            && id in s.transfers && 1 <= index <= |s.transfers[id].windows| && OthersKept(s, s', id)
            && var t, t' := s.transfers[id], s'.transfers[id];
               var tries := !t.status.Done? && t.windows[index - 1].plan.mode in {AtAnyTime, Immediately};
               var begins := tries && t.fileType == FirmwareImage && s.slot == None && accepted;
               var fails := tries && t.fileType == FirmwareImage && !begins;
               && t'.fileType == t.fileType && t'.windows == t.windows
               && t'.info == Info(|t.windows|, index, true)
               && t'.attempts == t.attempts + (if tries then 1 else 0)
               && t'.status == (if begins then InProgress else if fails then Failed else t.status)
               && t'.faultCode == (if fails then 9002 else t.faultCode)
               && t'.faultString == (if fails then "Failed to perform upgrade" else t.faultString)
               && s'.slot == (if begins then Some(id) else s.slot)
               && s'.queue == s.queue[1..] + if fails then [TransferFailed(id)] else []
  {
    HeadIsKnown(s);
    ReachableGood(s, s.queue[0].id);
    StartedOne(s.transfers[s.queue[0].id], s.slot, s.queue[0].id, s.queue[0].index, accepted);
  }

  lemma EndedOne(t: Transfer, slot: Option<nat>, id: nat, accepted: bool)
    requires Shape(t) && (slot == Some(id) ==> HoldsSlot(t))
    ensures var o, n := OnWindowEnded(t, slot, id, accepted), |t.windows|;
            var over := !t.status.Done? && t.info.lastTimeWindow == n && t.windows[n - 1].plan.mode in {AtAnyTime, Immediately};
            var t' := t.(info := t.info.(withinTimeWindow := false));
            && !o.failed
            && (!over ==> o.t == t' && o.slot == slot)
            && (over ==>
                  && o.t == t'.(faultCode := 9002, faultString := "TimeWindow(s) ended",
                                status := if t.fileType == EmptyFileType then t.status else Done)
                  && o.slot == if slot == Some(id) then None else slot)
  {
  }

  /**
   * A window has closed. Unless the transfer is done, the end of its last window gives it fault
   * 9002 and, for every file whose type is known, finishes it, which frees the slot if it was its
   * own; an earlier end only closes the window.
   */
  lemma WindowEndDecides(s: State, accepted: bool)
    requires Reachable(s) && s.queue != [] && s.queue[0].WindowEnded?
    ensures var id, s' := s.queue[0].id, Step(s, Deliver(accepted));
            && id in s.transfers && OthersKept(s, s', id)
            && var t, t' := s.transfers[id], s'.transfers[id];
               var n := |t.windows|;
               var over := n > 0 && !t.status.Done? && t.info.lastTimeWindow == n && t.windows[n - 1].plan.mode in {AtAnyTime, Immediately};
               && t'.fileType == t.fileType && t'.windows == t.windows && t'.attempts == t.attempts
               && t'.info == Info(n, t.info.lastTimeWindow, false)
               && t'.status == (if over && t.fileType != EmptyFileType then Done else t.status)
               && t'.faultCode == (if over then 9002 else t.faultCode)
               && t'.faultString == (if over then "TimeWindow(s) ended" else t.faultString)
               && s'.slot == (if over && s.slot == Some(id) then None else s.slot)
               && s'.queue == s.queue[1..]
  {
    HeadIsKnown(s);
    ReachableGood(s, s.queue[0].id);
    ReachableSlotOk(s);
    EndedOne(s.transfers[s.queue[0].id], s.slot, s.queue[0].id, accepted);
  }

  lemma FailureOutside(t: Transfer, slot: Option<nat>, id: nat, accepted: bool)
    requires Shape(t) && !WithinOpenWindow(t)
    ensures OnTransferFailed(t, slot, id, accepted) == Outcome(t, slot, false)
  {
  }

  /** An announced failure outside an open window, or in one that is not for the plug-in to act in, changes nothing. */
  lemma FailureOutsideWindowIgnored(s: State, accepted: bool)
    requires Reachable(s) && s.queue != [] && s.queue[0].TransferFailed?
    requires var id := s.queue[0].id;
             id in s.transfers ==> !WithinOpenWindow(s.transfers[id])
    ensures Step(s, Deliver(accepted)) == s.(queue := s.queue[1..])
  {
    HeadIsKnown(s);
    ReachableGood(s, s.queue[0].id);
    var id := s.queue[0].id;
    FailureOutside(s.transfers[id], s.slot, id, accepted);
    assert s.transfers[id := s.transfers[id]] == s.transfers;
  }

  // ----- Timers, offsets and notifications -----

  /** One window of one transfer differs, and the change is announced. */
  ghost predicate WindowChanged(s: State, s': State, id: nat, index: nat, w: Window, change: Change)
    requires HasWindow(s, id, index)
  {
    && OthersKept(s, s', id) && s'.slot == s.slot && s'.queue == s.queue + [change]
    && s'.transfers[id] == s.transfers[id].(windows := s.transfers[id].windows[index - 1 := w])
  }

  /** A window whose start is due opens, and its start timer is gone. */
  lemma StartIsAnnounced(s: State, id: nat, index: nat)
    requires Reachable(s) && Enabled(s, StartTimer(id, index))
    ensures var w := s.transfers[id].windows[index - 1];
            WindowChanged(s, Step(s, StartTimer(id, index)), id, index, w.(status := Started, startTimer := None), WindowStarted(id, index))
  {
    ReachableGood(s, id);
    assert WindowShape(s.transfers[id].windows[index - 1]);
  }

  /** A window whose end is due closes, and its end timer is gone. */
  lemma EndIsAnnounced(s: State, id: nat, index: nat)
    requires Reachable(s) && Enabled(s, EndTimer(id, index))
    ensures var w := s.transfers[id].windows[index - 1];
            WindowChanged(s, Step(s, EndTimer(id, index)), id, index, w.(status := Ended, endTimer := None), WindowEnded(id, index))
  {
    ReachableGood(s, id);
    assert WindowShape(s.transfers[id].windows[index - 1]);
  }

  /** The seconds that `w` still has to wait, stored in place of its offsets; what is past is stored as 0 or left alone. */
  ghost predicate Stored(w: Window, w': Window) {
    match w.status
    case Idle => w.startTimer.Some? && w.endTimer.Some? &&
                 w' == w.(windowStart := w.startTimer.value / 1000 % 0x1_0000_0000, windowEnd := w.endTimer.value / 1000 % 0x1_0000_0000)
    case Started => w' == w.(windowStart := 0,
                             windowEnd := if w.endTimer.Some? then w.endTimer.value / 1000 % 0x1_0000_0000 else 0)
    case Ended => w' == w
  }

  /** Nothing but the stored offsets differs. */
  ghost predicate OffsetsStored(s: State, s': State) {
    && s'.slot == s.slot && s'.queue == s.queue && s'.transfers.Keys == s.transfers.Keys
    && forall id :: id in s.transfers ==>
         var ws, ws' := s.transfers[id].windows, s'.transfers[id].windows;
         && s'.transfers[id] == s.transfers[id].(windows := ws')
         && |ws'| == |ws| && forall i :: 0 <= i < |ws| ==> Stored(ws[i], ws'[i])
  }

  lemma SavedIsStored(ws: seq<Window>)
    requires forall i :: 0 <= i < |ws| ==> WindowShape(ws[i])
    ensures |MapWindows(SaveOffsets, ws)| == |ws| && forall i :: 0 <= i < |ws| ==> Stored(ws[i], MapWindows(SaveOffsets, ws)[i])
  {
    forall i | 0 <= i < |ws|
      ensures Stored(ws[i], SaveOffsets(ws[i]))
    {
      assert WindowShape(ws[i]);
    }
  }

  lemma SaveStoresOffsets(s: State)
    requires Reachable(s) && Enabled(s, Save)
    ensures OffsetsStored(s, Step(s, Save))
  {
    forall id | id in s.transfers
      ensures Step(s, Save).transfers[id] == s.transfers[id].(windows := MapWindows(SaveOffsets, s.transfers[id].windows))
      ensures forall i :: 0 <= i < |s.transfers[id].windows| ==> Stored(s.transfers[id].windows[i], MapWindows(SaveOffsets, s.transfers[id].windows)[i])
    {
      ReachableGood(s, id);
      SavedIsStored(s.transfers[id].windows);
    }
  }

  /**
   * A notification about the image matters only while an upgrade holds the slot: one of four
   * statuses ends the upgrade, "Validating" stores the offsets, and any other changes nothing.
   */
  lemma NotificationDecides(s: State, n: Notification)
    requires Reachable(s) && s.queue == []
    ensures var s' := Step(s, Notify(n));
            && (s.slot.Some? && n.status in {Some("DownloadFailed"), Some("ValidationFailed"), Some("InstallationFailed"), Some("ActivationFailed")} ==>
                  s'.slot.None? && OthersKept(s, s', s.slot.value))
            && (s.slot.Some? && n.status == Some("Validating") ==> OffsetsStored(s, s'))
            && (s.slot.None? || n.status !in {Some("DownloadFailed"), Some("ValidationFailed"), Some("InstallationFailed"), Some("ActivationFailed"), Some("Validating")} ==>
                  s' == s)
  {
    ReachableSlotOk(s);
    SaveStoresOffsets(s);
    assert "DownloadFailed"[0] != "Validating"[0];
    assert "ValidationFailed"[8] != "Validating"[8];
    assert "InstallationFailed"[0] != "Validating"[0];
    assert "ActivationFailed"[0] != "Validating"[0];
  }

  /** A request with windows becomes an idle transfer with the first two of them at most, each waiting for its offsets. */
  lemma AddDecides(s: State, id: nat, fileType: FileType, plans: seq<Plan>)
    requires Reachable(s) && Enabled(s, Add(id, fileType, plans))
    ensures var s' := Step(s, Add(id, fileType, plans));
            && s'.slot == s.slot && s'.queue == []
            && (plans == [] ==> s' == s)
            && (plans != [] ==>
                  && s'.transfers.Keys == s.transfers.Keys + {id}
                  && (forall x :: x in s.transfers ==> s'.transfers[x] == s.transfers[x])
                  && var t := s'.transfers[id];
                     && t == Transfer(fileType, t.windows, TransferIdle, 0, "", Info(|t.windows|, 0, false), 0)
                     && |t.windows| == (if |plans| == 1 then 1 else 2)
                     && forall i :: 0 <= i < |t.windows| ==>
                          t.windows[i] == Window(plans[i], Idle, plans[i].retries, plans[i].start, plans[i].end,
                                                 Some(plans[i].start * 1000 % 0x1_0000_0000), Some(plans[i].end * 1000 % 0x1_0000_0000)))
  {
    if plans != [] {
      var t := Step(s, Add(id, fileType, plans)).transfers[id];
      assert forall i :: 0 <= i < |t.windows| ==> t.windows[i].status.Idle?;
    }
  }
}
