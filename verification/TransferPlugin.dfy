/**
 * The ScheduleDownload plug-in as it is written: a store of transfers that the handlers
 * update in place, one global slot, and the change events the data model raises on the way.
 * Every handler is proved to make exactly the step of TransferModel.
 */
module TransferPlugin {
  import opened Common
  import opened TimeWindows
  import opened TransferModel

  class Plugin {
    var transfers: map<nat, Transfer>
    var transferInProgress: Option<nat>
    var events: seq<Change>

    ghost function Snapshot(): (r: State)
      reads this
    {
      State(transfers, transferInProgress, events)
    }

    constructor ()
      ensures Snapshot() == Init()
    {
      transfers, transferInProgress, events := map[], None, [];
    }

    /** Writing a status raises an event only when the value changes; only "Failed" has a subscriber. */
    method SetStatus(id: nat, status: TransferStatus)
      requires id in transfers
      modifies this`transfers, this`events
      ensures transfers == old(transfers)[id := old(transfers)[id].(status := status)]
      ensures events == if status.Failed? && !old(transfers)[id].status.Failed?
                        then old(events) + [TransferFailed(id)] else old(events)
    {
      var before := transfers[id].status;
      transfers := transfers[id := transfers[id].(status := status)];
      if before != status && status.Failed? {
        events := events + [TransferFailed(id)];
      }
    }

    method UpdateTransferComplete(id: nat, code: nat, text: string)
      requires id in transfers
      modifies this`transfers
      ensures transfers == old(transfers)[id := SetFault(old(transfers)[id], code, text)]
    {
      transfers := transfers[id := transfers[id].(faultCode := code, faultString := text)];
    }

    /** `accepted` is the answer of the Download call on the bus. */
    method DoFirmwareUpgrade(id: nat, accepted: bool) returns (ok: bool)
      modifies this`transferInProgress
      ensures ok <==> old(transferInProgress).None? && accepted
      ensures transferInProgress == if ok then Some(id) else old(transferInProgress)
    {
      ok := false;
      if transferInProgress.None? {
        transferInProgress := Some(id);
        if accepted {
          ok := true;
        } else {
          transferInProgress := None;
        }
      }
    }

    method FirmwareTransferDone(id: nat)
      modifies this`transferInProgress
      ensures transferInProgress == if old(transferInProgress) == Some(id) then None else old(transferInProgress)
    {
      if transferInProgress.Some? && transferInProgress.value == id {
        transferInProgress := None;
      }
    }

    method StartTransfer(id: nat, accepted: bool)
      requires id in transfers
      modifies this
      ensures Snapshot() == Apply(old(Snapshot()), id,
                                  TransferModel.StartTransfer(old(transfers)[id], old(transferInProgress), id, accepted))
    {
      transfers := transfers[id := transfers[id].(attempts := transfers[id].attempts + 1)];
      if transfers[id].fileType.FirmwareImage? {
        SetStatus(id, InProgress);
        var ok := DoFirmwareUpgrade(id, accepted);
        if !ok {
          UpdateTransferComplete(id, FAULT_INTERNAL_ERROR, "Failed to perform upgrade");
          SetStatus(id, Failed);
        }
      }
      assert transfers == old(transfers)[id := transfers[id]];
    }

    method TransferDone(id: nat)
      requires id in transfers
      modifies this
      ensures Snapshot() == Apply(old(Snapshot()), id,
                                  TransferModel.TransferDone(old(transfers)[id], old(transferInProgress), id))
    {
      if !transfers[id].fileType.EmptyFileType? {
        if transfers[id].fileType.FirmwareImage? {
          FirmwareTransferDone(id);
        }
        SetStatus(id, Done);
      }
      assert transfers == old(transfers)[id := transfers[id]];
    }

    method FirmwareUpgradeDone(id: nat, code: nat, text: string)
      requires id in transfers
      modifies this
      ensures Snapshot() == Upgraded(old(Snapshot()), id, code, text)
    {
      var t := transfers[id];
      if t.info.lastTimeWindow != 0 && t.info.lastTimeWindow <= |t.windows| {
        var mode := t.windows[t.info.lastTimeWindow - 1].plan.mode;
        if mode == Immediately || mode == AtAnyTime {
          if t.info.withinTimeWindow {
            UpdateTransferComplete(id, code, text);
            if code == 0 {
              TransferDone(id);
            } else {
              SetStatus(id, Failed);
            }
          }
        }
      }
      assert transfers == old(transfers)[id := transfers[id]];
    }

    method HandleTransfer(id: nat, accepted: bool)
      requires id in transfers
      modifies this
      ensures Snapshot() == Apply(old(Snapshot()), id,
                                  TransferModel.HandleTransfer(old(transfers)[id], old(transferInProgress), id, accepted))
    {
      var t := transfers[id];
      if !t.status.Done? && t.info.lastTimeWindow != 0 && t.info.lastTimeWindow <= |t.windows| {
        var mode := t.windows[t.info.lastTimeWindow - 1].plan.mode;
        if mode == Immediately || mode == AtAnyTime {
          if t.info.withinTimeWindow {
            StartTransfer(id, accepted);
          } else if t.info.numberOfTimeWindow == t.info.lastTimeWindow {
            UpdateTransferComplete(id, FAULT_INTERNAL_ERROR, "TimeWindow(s) ended");
            TransferDone(id);
          }
        }
      }
      assert transfers == old(transfers)[id := transfers[id]];
    }

    method TimewindowStarted(id: nat, index: nat, accepted: bool)
      requires id in transfers
      modifies this
      ensures Snapshot() == Apply(old(Snapshot()), id,
                                  OnWindowStarted(old(transfers)[id], old(transferInProgress), id, index, accepted))
    {
      var t := transfers[id];
      transfers := transfers[id := t.(info := t.info.(withinTimeWindow := true, lastTimeWindow := index))];
      HandleTransfer(id, accepted);
      assert transfers == old(transfers)[id := transfers[id]];
    }

    method TimewindowEnded(id: nat, accepted: bool)
      requires id in transfers
      modifies this
      ensures Snapshot() == Apply(old(Snapshot()), id,
                                  OnWindowEnded(old(transfers)[id], old(transferInProgress), id, accepted))
    {
      var t := transfers[id];
      transfers := transfers[id := t.(info := t.info.(withinTimeWindow := false))];
      HandleTransfer(id, accepted);
      assert transfers == old(transfers)[id := transfers[id]];
    }

    method ScheduleDownloadTransferFailed(id: nat, accepted: bool)
      requires id in transfers
      modifies this
      ensures Snapshot() == Apply(old(Snapshot()), id,
                                  OnTransferFailed(old(transfers)[id], old(transferInProgress), id, accepted))
    {
      var t := transfers[id];
      if t.info.lastTimeWindow != 0 && t.info.lastTimeWindow <= |t.windows| {
        var last := t.info.lastTimeWindow - 1;
        var mode := t.windows[last].plan.mode;
        if (mode == Immediately || mode == AtAnyTime) && t.info.withinTimeWindow {
          var retries := t.windows[last].maxRetries;
          if retries <= 0 {
            if t.info.numberOfTimeWindow == t.info.lastTimeWindow {
              TransferDone(id);
            }
          } else {
            retries := retries - 1;
            transfers := transfers[id := t.(windows := t.windows[last := t.windows[last].(maxRetries := retries)])];
            StartTransfer(id, accepted);
          }
        }
      }
      assert transfers == old(transfers)[id := transfers[id]];
    }

    /** Hand the oldest waiting change to its subscriber. */
    method DispatchChange(accepted: bool)
      requires events != [] && events[0].id in transfers
      modifies this
      ensures Snapshot() == DeliverHead(old(Snapshot()), accepted)
    {
      var change := events[0];
      events := events[1..];
      match change {
        case WindowStarted(id, index) => TimewindowStarted(id, index, accepted);
        case WindowEnded(id, index) => TimewindowEnded(id, accepted);
        case TransferFailed(id) => ScheduleDownloadTransferFailed(id, accepted);
      }
    }

    /** The loop that finds, in the stored statuses, where a transfer has got to. */
    method AddInfo(id: nat)
      requires id in transfers
      modifies this`transfers
      ensures transfers == old(transfers)[id := Rebuild(old(transfers)[id])]
    {
      var ws := transfers[id].windows;
      var last, within := 0, false;
      var i := 1;
      while i <= |ws|
        invariant 1 <= i <= |ws| + 1
        invariant (last, within) == LastTouched(ws[..i - 1])
      {
        assert ws[..i][..i - 1] == ws[..i - 1];
        match ws[i - 1].status {
          case Started => last, within := i, true;
          case Ended => last, within := i, false;
          case Idle =>
        }
        i := i + 1;
      }
      assert ws[..|ws|] == ws;
      transfers := transfers[id := transfers[id].(info := Info(|ws|, last, within))];
    }

    method TimewindowInternalStart(id: nat, index: nat)
      requires id in transfers && 1 <= index <= |transfers[id].windows|
      modifies this`transfers
      ensures var t := old(transfers)[id];
              transfers == old(transfers)[id := t.(windows := t.windows[index - 1 := Arm(t.windows[index - 1])])]
    {
      var t := transfers[id];
      var w := t.windows[index - 1].(startTimer := None, endTimer := None);
      match w.status {
        case Idle =>
          w := w.(startTimer := Some(OffsetMs(w.windowStart)));
          w := w.(endTimer := Some(OffsetMs(w.windowEnd)));
        case Started =>
          w := w.(endTimer := Some(OffsetMs(w.windowEnd)));
        case Ended =>
      }
      transfers := transfers[id := t.(windows := t.windows[index - 1 := w])];
    }

    /** Window 1, then window 2 if there is one. */
    method TimewindowStart(id: nat)
      requires id in transfers && 1 <= |transfers[id].windows| <= 2
      modifies this`transfers
      ensures var t := old(transfers)[id];
              transfers == old(transfers)[id := t.(windows := MapWindows(Arm, t.windows))]
    {
      ghost var t := transfers[id];
      TimewindowInternalStart(id, 1);
      if |transfers[id].windows| == 2 {
        TimewindowInternalStart(id, 2);
      }
      assert transfers[id].windows == MapWindows(Arm, t.windows);
      assert transfers == old(transfers)[id := t.(windows := MapWindows(Arm, t.windows))];
    }

    method TimewindowInternalSave(id: nat, index: nat)
      requires id in transfers && 1 <= index <= |transfers[id].windows|
      modifies this`transfers
      ensures var t := old(transfers)[id];
              transfers == old(transfers)[id := t.(windows := t.windows[index - 1 := SaveOffsets(t.windows[index - 1])])]
    {
      var t := transfers[id];
      var w := t.windows[index - 1];
      match w.status {
        case Idle =>
          var windowStart := SavedSeconds(w.startTimer);
          var windowEnd := SavedSeconds(w.endTimer);
          w := w.(windowStart := windowStart);
          w := w.(windowEnd := windowEnd);
        case Started =>
          var windowEnd := SavedSeconds(w.endTimer);
          w := w.(windowStart := 0);
          w := w.(windowEnd := windowEnd);
        case Ended =>
      }
      transfers := transfers[id := t.(windows := t.windows[index - 1 := w])];
    }

    method TimewindowSave(id: nat)
      requires id in transfers && 1 <= |transfers[id].windows| <= 2
      modifies this`transfers
      ensures var t := old(transfers)[id];
              transfers == old(transfers)[id := t.(windows := MapWindows(SaveOffsets, t.windows))]
    {
      ghost var t := transfers[id];
      TimewindowInternalSave(id, 1);
      if |transfers[id].windows| == 2 {
        TimewindowInternalSave(id, 2);
      }
      assert transfers[id].windows == MapWindows(SaveOffsets, t.windows);
      assert transfers == old(transfers)[id := t.(windows := MapWindows(SaveOffsets, t.windows))];
    }

    /** `order` is the instance list of the data model. */
    method SaveTransfers(order: seq<nat>)
      requires Lists(order, transfers.Keys)
      requires forall id :: id in transfers ==> 1 <= |transfers[id].windows| <= 2
      modifies this`transfers
      ensures Snapshot() == SaveAll(old(Snapshot()))
    {
      ghost var before := transfers;
      for k := 0 to |order|
        invariant transfers.Keys == before.Keys
        invariant forall j :: 0 <= j < k ==>
                    transfers[order[j]] == before[order[j]].(windows := MapWindows(SaveOffsets, before[order[j]].windows))
        invariant forall j :: k <= j < |order| ==> transfers[order[j]] == before[order[j]]
      {
        assert order[k] in before;
        TimewindowSave(order[k]);
      }
      forall id | id in before
        ensures transfers[id] == before[id].(windows := MapWindows(SaveOffsets, before[id].windows))
      {
        assert id in order;
      }
      assert transfers == SaveAll(old(Snapshot())).transfers;
    }

    /** The instance is created with its first one or two windows; the event for it then arms them. */
    method AddScheduleDownload(id: nat, fileType: FileType, plans: seq<Plan>) returns (ok: bool)
      requires Enabled(Snapshot(), Add(id, fileType, plans))
      modifies this
      ensures Snapshot() == Step(old(Snapshot()), Add(id, fileType, plans))
      ensures ok <==> plans != []
    {
      if plans == [] {
        return false;
      }
      var windows := [NewWindow(plans[0])];
      if |plans| > 1 {
        windows := windows + [NewWindow(plans[1])];
      }
      assert windows == NewWindows(if |plans| < 2 then plans else plans[..2]);
      transfers := transfers[id := Transfer(fileType, windows, TransferIdle, 0, "", Info(0, 0, false), 0)];
      AddInfo(id);
      TimewindowStart(id);
      assert transfers[id] == NewTransfer(fileType, plans);
      assert transfers == old(transfers)[id := transfers[id]];
      ok := true;
    }

    /** Write a window's status, which raises an event if it changes. */
    method SetWindowStatus(id: nat, index: nat, status: WindowStatus)
      requires id in transfers && 1 <= index <= |transfers[id].windows| && !status.Idle?
      modifies this`transfers, this`events
      ensures var t := old(transfers)[id];
              && transfers == old(transfers)[id := t.(windows := t.windows[index - 1 := t.windows[index - 1].(status := status)])]
              && events == if t.windows[index - 1].status == status then old(events)
                           else old(events) + [if status.Started? then WindowStarted(id, index) else WindowEnded(id, index)]
    {
      var t := transfers[id];
      var before := t.windows[index - 1].status;
      transfers := transfers[id := t.(windows := t.windows[index - 1 := t.windows[index - 1].(status := status)])];
      if before != status {
        events := events + [if status.Started? then WindowStarted(id, index) else WindowEnded(id, index)];
      }
    }

    /** A start timer fires; it is gone afterwards. */
    method StartTimerExpired(id: nat, index: nat)
      requires Enabled(Snapshot(), TransferModel.StartTimer(id, index))
      modifies this
      ensures Snapshot() == Step(old(Snapshot()), TransferModel.StartTimer(id, index))
    {
      var t := transfers[id];
      transfers := transfers[id := t.(windows := t.windows[index - 1 := t.windows[index - 1].(startTimer := None)])];
      SetWindowStatus(id, index, Started);
      assert transfers[id].windows == t.windows[index - 1 := FireStart(t.windows[index - 1])];
      assert transfers == old(transfers)[id := transfers[id]];
    }

    method EndTimerExpired(id: nat, index: nat)
      requires Enabled(Snapshot(), TransferModel.EndTimer(id, index))
      modifies this
      ensures Snapshot() == Step(old(Snapshot()), TransferModel.EndTimer(id, index))
    {
      var t := transfers[id];
      transfers := transfers[id := t.(windows := t.windows[index - 1 := t.windows[index - 1].(endTimer := None)])];
      SetWindowStatus(id, index, Ended);
      assert transfers[id].windows == t.windows[index - 1 := FireEnd(t.windows[index - 1])];
      assert transfers == old(transfers)[id := transfers[id]];
    }

    /** The acknowledged instance is deleted; there is an error if there is no such instance. */
    method TransferDoneAcknowledged(id: nat) returns (error: int)
      modifies this`transfers
      ensures transfers == old(transfers) - {id}
      ensures error == if id in old(transfers) then 0 else -1
      ensures old(Enabled(Snapshot(), Acknowledge(id))) ==> Snapshot() == Step(old(Snapshot()), Acknowledge(id))
    {
      error := if id in transfers then 0 else -1;
      transfers := transfers - {id};
    }

    method HandleInProgressTransfer(id: nat, imageStatus: Option<string>)
      requires id in transfers
      modifies this
      ensures Snapshot() ==
              if old(transfers)[id].status.InProgress? && old(transfers)[id].fileType.FirmwareImage?
              then Upgraded(old(Snapshot()), id, PendingFault(imageStatus).0, PendingFault(imageStatus).1)
              else old(Snapshot())
    {
      var t := transfers[id];
      if !t.fileType.EmptyFileType? && t.status.InProgress? && t.fileType.FirmwareImage? {
        var code, text := 0, "";
        if imageStatus.None? {
          code, text := FAULT_INTERNAL_ERROR, "Internal failure";
        } else if imageStatus.value != "Active" {
          code, text := FAULT_INTERNAL_ERROR, "Failed to apply firmware";
        }
        FirmwareUpgradeDone(id, code, text);
      }
    }

    /** One turn of the deferred initialisation. */
    method InitTransfer(id: nat, imageStatus: Option<string>)
      requires id in transfers && 1 <= |transfers[id].windows| <= 2 && transferInProgress.None?
      modifies this
      ensures Snapshot() == Apply(old(Snapshot()), id, RestartOne(old(transfers)[id], id, imageStatus))
    {
      AddInfo(id);
      HandleInProgressTransfer(id, imageStatus);
      TimewindowStart(id);
      assert transfers == old(transfers)[id := RestartOne(old(transfers)[id], id, imageStatus).t];
    }

    /** A new process: no upgrade in the slot, no event waiting, every transfer picked up again; `images` are the bus answers. */
    method RestartProcess(order: seq<nat>, images: map<nat, string>)
      requires Lists(order, transfers.Keys)
      requires forall id :: id in transfers ==> 1 <= |transfers[id].windows| <= 2
      modifies this
      ensures Snapshot() == Restarted(old(Snapshot()), order, images)
    {
      transferInProgress := None;
      events := [];
      ghost var s0 := Snapshot();
      for k := 0 to |order|
        invariant Snapshot() == PickUp(s0, order[..k], images)
      {
        PickUpNext(s0, order, k, images);
        InitTransfer(order[k], ImageStatus(images, order[k]));
      }
      assert order[..|order|] == order;
      PickUpIsRestarted(old(Snapshot()), order, images);
    }

    method FirmwareImageNotification(n: Notification, order: seq<nat>)
      requires transferInProgress.Some? ==> transferInProgress.value in transfers
      requires Lists(order, transfers.Keys)
      requires forall id :: id in transfers ==> 1 <= |transfers[id].windows| <= 2
      modifies this
      ensures Snapshot() == Notified(old(Snapshot()), n)
    {
      if transferInProgress.Some? && n.status.Some? {
        var status := n.status.value;
        var log := "";
        if n.bootFailureLog.Some? {
          log := n.bootFailureLog.value;
        }
        if status == "DownloadFailed" || status == "ValidationFailed"
           || status == "InstallationFailed" || status == "ActivationFailed" {
          var code := FAULT_FILE_TRANSFER_FAILURE;
          if log == "Protocol not supported" {
            code := FAULT_UNSUPPORTED_PROTOCOL;
          }
          FirmwareUpgradeDone(transferInProgress.value, code, log);
          transferInProgress := None;
        } else if status == "Validating" {
          SaveTransfers(order);
        }
      }
    }
  }
}
