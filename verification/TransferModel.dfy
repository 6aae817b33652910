/**
 * The ScheduleDownload engine as a step system (transfers.c, transfers_dm.c,
 * transfers_firmware.c).
 *
 * A state holds the transfers of the data model, the firmware slot, and the
 * data-model change events that have been raised but not yet delivered. Timers,
 * bus notifications, restarts and acknowledgements happen only when no change
 * event is waiting.
 */
module TransferModel {
  import opened Common
  import opened TimeWindows

  const FAULT_INTERNAL_ERROR: nat := 9002
  const FAULT_FILE_TRANSFER_FAILURE: nat := 9010
  const FAULT_UNSUPPORTED_PROTOCOL: nat := 9013

  datatype FileType = EmptyFileType | FirmwareImage | OtherFileType

  datatype TransferStatus = TransferIdle | InProgress | Failed | Done

  /** The plug-in's private data about a transfer. Windows are numbered from 1; 0 is "none yet". */
  datatype Info = Info(numberOfTimeWindow: nat, lastTimeWindow: nat, withinTimeWindow: bool)

  /** `attempts` counts the calls of StartTransfer; it is history, not a field of the plug-in. */
  datatype Transfer = Transfer(
    fileType: FileType,
    windows: seq<Window>,
    status: TransferStatus,
    faultCode: nat,
    faultString: string,
    info: Info,
    attempts: nat)

  /** Change events the plug-in subscribes to on its own data model. */
  datatype Change = WindowStarted(id: nat, index: nat) | WindowEnded(id: nat, index: nat) | TransferFailed(id: nat)

  datatype State = State(transfers: map<nat, Transfer>, slot: Option<nat>, queue: seq<Change>)

  /** A change of the active firmware image; a field that is absent is None. */
  datatype Notification = Notification(status: Option<string>, bootFailureLog: Option<string>)

  datatype Event =
    | Add(newId: nat, fileType: FileType, plans: seq<Plan>)
    | Elapse(ms: nat)
    | StartTimer(id: nat, index: nat)
    | EndTimer(id: nat, index: nat)
    | Deliver(downloadAccepted: bool)
    | Notify(notification: Notification)
    | Save
    | Restart(order: seq<nat>, images: map<nat, string>)
    | Acknowledge(id: nat)

  // ----- One transfer at a time -----

  /** What a handler leaves behind: the transfer, the slot, and whether "Failed" was announced. */
  datatype Outcome = Outcome(t: Transfer, slot: Option<nat>, failed: bool)

  function SetFault(t: Transfer, code: nat, text: string): (t': Transfer) {
    t.(faultCode := code, faultString := text)
  }

  function CurrentMode(t: Transfer): (r: WindowMode) {
    if 1 <= t.info.lastTimeWindow <= |t.windows| then t.windows[t.info.lastTimeWindow - 1].plan.mode else UnknownMode
  }

  function TransferDone(t: Transfer, slot: Option<nat>, id: nat): (r: Outcome) {
    match t.fileType
    case EmptyFileType => Outcome(t, slot, false)
    case FirmwareImage => Outcome(t.(status := Done), if slot == Some(id) then None else slot, false)
    case OtherFileType => Outcome(t.(status := Done), slot, false)
  }

  function StartTransfer(t: Transfer, slot: Option<nat>, id: nat, accepted: bool): (r: Outcome) {
    var t1 := t.(attempts := t.attempts + 1);
    if !t.fileType.FirmwareImage? then
      Outcome(t1, slot, false)
    else if slot.None? && accepted then
      Outcome(t1.(status := InProgress), Some(id), false)
    else
      Outcome(SetFault(t1, FAULT_INTERNAL_ERROR, "Failed to perform upgrade").(status := Failed), slot, true)
  }

  function UpgradeDone(t: Transfer, slot: Option<nat>, id: nat, code: nat, text: string): (r: Outcome) {
    if !Automatic(CurrentMode(t)) || !t.info.withinTimeWindow then
      Outcome(t, slot, false)
    else if code == 0 then
      TransferDone(SetFault(t, code, text), slot, id)
    else
      Outcome(SetFault(t, code, text).(status := Failed), slot, !t.status.Failed?)
  }

  function HandleTransfer(t: Transfer, slot: Option<nat>, id: nat, accepted: bool): (r: Outcome) {
    if t.status.Done? || !Automatic(CurrentMode(t)) then
      Outcome(t, slot, false)
    else if t.info.withinTimeWindow then
      StartTransfer(t, slot, id, accepted)
    else if t.info.numberOfTimeWindow == t.info.lastTimeWindow then
      TransferDone(SetFault(t, FAULT_INTERNAL_ERROR, "TimeWindow(s) ended"), slot, id)
    else
      Outcome(t, slot, false)
  }

  function OnWindowStarted(t: Transfer, slot: Option<nat>, id: nat, index: nat, accepted: bool): (r: Outcome) {
    HandleTransfer(t.(info := t.info.(withinTimeWindow := true, lastTimeWindow := index)), slot, id, accepted)
  }

  function OnWindowEnded(t: Transfer, slot: Option<nat>, id: nat, accepted: bool): (r: Outcome) {
    HandleTransfer(t.(info := t.info.(withinTimeWindow := false)), slot, id, accepted)
  }

  function OnTransferFailed(t: Transfer, slot: Option<nat>, id: nat, accepted: bool): (r: Outcome) {
    if !Automatic(CurrentMode(t)) || !t.info.withinTimeWindow then
      Outcome(t, slot, false)
    else
      var last := t.info.lastTimeWindow - 1;
      var w := t.windows[last];
      if w.maxRetries > 0 then
        StartTransfer(t.(windows := t.windows[last := w.(maxRetries := w.maxRetries - 1)]), slot, id, accepted)
      else if t.info.numberOfTimeWindow == t.info.lastTimeWindow then
        TransferDone(t, slot, id)
      else
        Outcome(t, slot, false)
  }

  // ----- (lastTimeWindow, withinTimeWindow) rebuilt from the stored statuses -----

  /** The highest window that is not idle (0 if all are), and whether it is the started one. */
  function LastTouched(ws: seq<Window>): (r: (nat, bool))
    ensures r.0 <= |ws|
    ensures forall i :: r.0 <= i < |ws| ==> ws[i].status.Idle?
    ensures r.0 == 0 ==> !r.1
    ensures r.0 > 0 ==> !ws[r.0 - 1].status.Idle? && (r.1 <==> ws[r.0 - 1].status.Started?)
  {
    if ws == [] then (0, false)
    else if !ws[|ws| - 1].status.Idle? then (|ws|, ws[|ws| - 1].status.Started?)
    else LastTouched(ws[..|ws| - 1])
  }

  function Rebuild(t: Transfer): (t': Transfer) {
    var r := LastTouched(t.windows);
    t.(info := Info(|t.windows|, r.0, r.1))
  }

  /** The result of an upgrade that a reboot has concluded. */
  function PendingFault(imageStatus: Option<string>): (r: (nat, string)) {
    match imageStatus
    case None => (FAULT_INTERNAL_ERROR, "Internal failure")
    case Some(s) => if s == "Active" then (0, "") else (FAULT_INTERNAL_ERROR, "Failed to apply firmware")
  }

  function RestartOne(t: Transfer, id: nat, imageStatus: Option<string>): (o: Outcome)
    ensures o.slot.None? && |o.t.windows| == |t.windows|
  {
    var t1 := Rebuild(t);
    var o := if t.status.InProgress? && t.fileType.FirmwareImage?
             then UpgradeDone(t1, None, id, PendingFault(imageStatus).0, PendingFault(imageStatus).1)
             else Outcome(t1, None, false);
    o.(t := o.t.(windows := MapWindows(Arm, o.t.windows)))
  }

  function NewTransfer(fileType: FileType, plans: seq<Plan>): (r: Transfer) {
    var ws := NewWindows(if |plans| < 2 then plans else plans[..2]);
    Rebuild(Transfer(fileType, MapWindows(Arm, ws), TransferIdle, 0, "", Info(0, 0, false), 0))
  }

  // ----- Steps of the whole engine -----

  function Init(): (r: State) {
    State(map[], None, [])
  }

  function Apply(s: State, id: nat, o: Outcome): (s': State) {
    State(s.transfers[id := o.t], o.slot, if o.failed then s.queue + [TransferFailed(id)] else s.queue)
  }

  function Upgraded(s: State, id: nat, code: nat, text: string): (s': State)
    requires id in s.transfers
  {
    Apply(s, id, UpgradeDone(s.transfers[id], s.slot, id, code, text))
  }

  function SaveAll(s: State): (s': State) {
    s.(transfers := map id | id in s.transfers ::
       s.transfers[id].(windows := MapWindows(SaveOffsets, s.transfers[id].windows)))
  }

  function DeliverHead(s: State, accepted: bool): (s': State)
    requires s.queue != []
  {
    var e := s.queue[0];
    var s1 := s.(queue := s.queue[1..]);
    if e.id !in s.transfers then s1
    else
      var t := s.transfers[e.id];
      match e
      case WindowStarted(id, i) => Apply(s1, id, OnWindowStarted(t, s.slot, id, i, accepted))
      case WindowEnded(id, i) => Apply(s1, id, OnWindowEnded(t, s.slot, id, accepted))
      case TransferFailed(id) => Apply(s1, id, OnTransferFailed(t, s.slot, id, accepted))
  }

  predicate IsFailureStatus(status: string) {
    || status == "DownloadFailed" || status == "ValidationFailed"
    || status == "InstallationFailed" || status == "ActivationFailed"
  }

  function FailureCode(log: string): (r: nat) {
    if log == "Protocol not supported" then FAULT_UNSUPPORTED_PROTOCOL else FAULT_FILE_TRANSFER_FAILURE
  }

  function Notified(s: State, n: Notification): (s': State) {
    if s.slot.None? || n.status.None? || s.slot.value !in s.transfers then
      s
    else if IsFailureStatus(n.status.value) then
      var log := if n.bootFailureLog.Some? then n.bootFailureLog.value else "";
      Upgraded(s, s.slot.value, FailureCode(log), log).(slot := None)
    else if n.status.value == "Validating" then
      SaveAll(s)
    else
      s
  }

  /** The status the bus gives for the image of a transfer when asked after the restart, if it answers. */
  function ImageStatus(images: map<nat, string>, id: nat): (r: Option<string>) {
    if id in images then Some(images[id]) else None
  }

  predicate FailsAtRestart(ts: map<nat, Transfer>, id: nat, images: map<nat, string>) {
    id in ts && RestartOne(ts[id], id, ImageStatus(images, id)).failed
  }

  function FailedAtRestart(ts: map<nat, Transfer>, order: seq<nat>, images: map<nat, string>): (r: seq<Change>) {
    if order == [] then []
    else
      var rest := FailedAtRestart(ts, order[..|order| - 1], images);
      var id := order[|order| - 1];
      if FailsAtRestart(ts, id, images) then rest + [TransferFailed(id)] else rest
  }

  function Restarted(s: State, order: seq<nat>, images: map<nat, string>): (s': State) {
    State(map id | id in s.transfers :: RestartOne(s.transfers[id], id, ImageStatus(images, id)).t,
          None,
          FailedAtRestart(s.transfers, order, images))
  }

  /** The same restart done the way the plug-in does it: one instance after the other. */
  function PickUp(s: State, order: seq<nat>, images: map<nat, string>): (s': State) {
    if order == [] then s
    else
      var s1 := PickUp(s, order[..|order| - 1], images);
      var id := order[|order| - 1];
      if id in s1.transfers then Apply(s1, id, RestartOne(s1.transfers[id], id, ImageStatus(images, id))) else s1
  }

  /** Picking up one transfer neither reads nor disturbs another. */
  lemma {:induction false} PickUpEach(s: State, order: seq<nat>, images: map<nat, string>)
    requires s.slot.None? && s.queue == []
    requires forall i, j :: 0 <= i < j < |order| ==> order[i] != order[j]
    ensures var s' := PickUp(s, order, images);
            && s'.slot.None? && s'.transfers.Keys == s.transfers.Keys
            && s'.queue == FailedAtRestart(s.transfers, order, images)
            && forall id :: id in s.transfers ==>
                 s'.transfers[id] == if id in order then RestartOne(s.transfers[id], id, ImageStatus(images, id)).t else s.transfers[id]
    decreases |order|
  {
    if order != [] {
      var init, id := order[..|order| - 1], order[|order| - 1];
      PickUpEach(s, init, images);
      assert id !in init;
      assert order == init + [id];
    }
  }

  lemma PickUpUnfolds(s: State, order: seq<nat>, k: nat, images: map<nat, string>)
    requires k < |order| && order[k] in PickUp(s, order[..k], images).transfers
    ensures var s1 := PickUp(s, order[..k], images);
            PickUp(s, order[..k + 1], images) == Apply(s1, order[k], RestartOne(s1.transfers[order[k]], order[k], ImageStatus(images, order[k])))
  {
    assert order[..k + 1][..k] == order[..k] && order[..k + 1][k] == order[k];
  }

  /** When its turn comes, a transfer is still as it was stored and the slot is still free. */
  lemma PickUpNext(s: State, order: seq<nat>, k: nat, images: map<nat, string>)
    requires k < |order| && Lists(order, s.transfers.Keys) && s.slot.None? && s.queue == []
    ensures var s1 := PickUp(s, order[..k], images);
            && s1.slot.None? && order[k] in s1.transfers && s1.transfers[order[k]] == s.transfers[order[k]]
            && PickUp(s, order[..k + 1], images) ==
               Apply(s1, order[k], RestartOne(s1.transfers[order[k]], order[k], ImageStatus(images, order[k])))
  {
    PickUpEach(s, order[..k], images);
    assert order[k] in order && order[k] !in order[..k];
    PickUpUnfolds(s, order, k, images);
  }

  lemma SameStates(a: State, b: State)
    requires a.transfers.Keys == b.transfers.Keys && a.slot == b.slot && a.queue == b.queue
    requires forall id :: id in a.transfers ==> a.transfers[id] == b.transfers[id]
    ensures a == b
  {
    assert a.transfers == b.transfers;
  }

  lemma PickUpIsRestarted(s: State, order: seq<nat>, images: map<nat, string>)
    requires Lists(order, s.transfers.Keys)
    ensures PickUp(State(s.transfers, None, []), order, images) == Restarted(s, order, images)
  {
    PickUpEach(State(s.transfers, None, []), order, images);
    SameStates(PickUp(State(s.transfers, None, []), order, images), Restarted(s, order, images));
  }

  /** The instances in list order: each id exactly once. */
  ghost predicate Lists(order: seq<nat>, ids: set<nat>) {
    && (forall id :: id in order <==> id in ids)
    && (forall i, j :: 0 <= i < j < |order| ==> order[i] != order[j])
  }

  predicate HasWindow(s: State, id: nat, index: nat) {
    id in s.transfers && 1 <= index <= |s.transfers[id].windows|
  }

  ghost predicate Enabled(s: State, e: Event) {
    match e
    case Deliver(_) => s.queue != []
    case Add(id, _, _) => s.queue == [] && id !in s.transfers
    case Elapse(ms) => s.queue == [] && forall id :: id in s.transfers ==> CanElapseAll(s.transfers[id].windows, ms)
    case StartTimer(id, i) => s.queue == [] && HasWindow(s, id, i) && s.transfers[id].windows[i - 1].startTimer == Some(0)
    case EndTimer(id, i) => s.queue == [] && HasWindow(s, id, i) && s.transfers[id].windows[i - 1].endTimer == Some(0)
    case Notify(_) => s.queue == []
    case Save => s.queue == []
    case Restart(order, _) => s.queue == [] && Lists(order, s.transfers.Keys)
    case Acknowledge(id) => s.queue == [] && id in s.transfers && s.transfers[id].status.Done?
  }

  function SetWindow(s: State, id: nat, index: nat, w: Window, change: Change): (s': State)
    requires HasWindow(s, id, index)
  {
    var t := s.transfers[id];
    State(s.transfers[id := t.(windows := t.windows[index - 1 := w])],
          s.slot,
          if w.status != t.windows[index - 1].status then s.queue + [change] else s.queue)
  }

  ghost function Step(s: State, e: Event): (s': State)
    requires Enabled(s, e)
  {
    match e
    case Deliver(accepted) => DeliverHead(s, accepted)
    case Add(id, fileType, plans) =>
      if plans == [] then s else s.(transfers := s.transfers[id := NewTransfer(fileType, plans)])
    case Elapse(ms) =>
      s.(transfers := map id | id in s.transfers ::
         s.transfers[id].(windows := ElapseAll(s.transfers[id].windows, ms)))
    case StartTimer(id, i) =>
      SetWindow(s, id, i, FireStart(s.transfers[id].windows[i - 1]), WindowStarted(id, i))
    case EndTimer(id, i) =>
      SetWindow(s, id, i, FireEnd(s.transfers[id].windows[i - 1]), WindowEnded(id, i))
    case Notify(n) => Notified(s, n)
    case Save => SaveAll(s)
    case Restart(order, images) => Restarted(s, order, images)
    case Acknowledge(id) => s.(transfers := s.transfers - {id})
  }

  ghost predicate Runs(s: State, events: seq<Event>, s': State)
    decreases |events|
  {
    if events == [] then
      s' == s
    else
      Enabled(s, events[0]) && Runs(Step(s, events[0]), events[1..], s')
  }

  /** `s` is what some run from an empty data model leads to. */
  ghost predicate Reachable(s: State) {
    exists events :: Runs(Init(), events, s)
  }
}
