/** What every run of the ScheduleDownload engine keeps. */
module TransferProofs {
  import opened Common
  import opened TimeWindows
  import opened TransferModel

  // ----- Counting attempts -----

  function Positive(n: int): (r: nat) {
    if n > 0 then n else 0
  }

  /** Attempts a window can still cause: one when it starts, one for each retry left. */
  function Cost(w: Window): (r: nat) {
    (if w.startTimer.Some? then 1 else 0) + Positive(w.maxRetries)
  }

  function Budget(ws: seq<Window>): (r: nat) {
    if ws == [] then 0 else Cost(ws[0]) + Budget(ws[1..])
  }

  /** Attempts the ACS allowed: one per window plus its retries. */
  function Granted(ws: seq<Window>): (r: nat) {
    if ws == [] then 0 else 1 + Positive(ws[0].plan.retries) + Granted(ws[1..])
  }

  lemma {:induction false} BudgetUpdate(ws: seq<Window>, i: nat, w: Window)
    requires i < |ws|
    ensures Budget(ws[i := w]) == Budget(ws) - Cost(ws[i]) + Cost(w)
    ensures w.plan == ws[i].plan ==> Granted(ws[i := w]) == Granted(ws)
  {
    if i == 0 {
      assert ws[i := w][1..] == ws[1..];
    } else {
      assert ws[i := w][1..] == ws[1..][i - 1 := w];
      BudgetUpdate(ws[1..], i - 1, w);
    }
  }

  lemma {:induction false} BudgetMonotone(ws: seq<Window>, ws': seq<Window>)
    requires |ws| == |ws'|
    requires forall i :: 0 <= i < |ws| ==> Cost(ws'[i]) <= Cost(ws[i]) && ws'[i].plan == ws[i].plan
    ensures Budget(ws') <= Budget(ws) && Granted(ws') == Granted(ws)
  {
    if ws != [] {
      BudgetMonotone(ws[1..], ws'[1..]);
    }
  }

  lemma {:induction false} NewBudget(ws: seq<Window>)
    requires forall i :: 0 <= i < |ws| ==> ws[i].maxRetries == ws[i].plan.retries
    ensures Budget(ws) <= Granted(ws)
  {
    if ws != [] {
      NewBudget(ws[1..]);
    }
  }

  // ----- The invariant -----

  /** The window change still waiting to be handled for a transfer, if any. */
  datatype Pending = NoPending | StartPending(index: nat) | EndPending(index: nat)

  function PendingFor(queue: seq<Change>, id: nat): (r: Pending) {
    if queue == [] then NoPending
    else match queue[0]
      case WindowStarted(x, i) => if x == id then StartPending(i) else NoPending
      case WindowEnded(x, i) => if x == id then EndPending(i) else NoPending
      case TransferFailed(_) => NoPending
  }

  predicate WindowShape(w: Window) {
    && (w.status.Idle? ==> w.startTimer.Some? && w.endTimer.Some?)
    && (w.status.Started? ==> w.startTimer.None?)
    && (w.status.Ended? ==> w.endTimer.None?)
  }

  predicate Shape(t: Transfer) {
    && 1 <= |t.windows| <= 2
    && t.info.numberOfTimeWindow == |t.windows|
    && t.info.lastTimeWindow <= |t.windows|
    && (t.info.withinTimeWindow ==> t.info.lastTimeWindow > 0)
    && (t.status.InProgress? || t.status.Failed? ==> t.fileType.FirmwareImage?)
    && (t.status.Failed? ==> t.faultCode != 0)
    && forall i :: 0 <= i < |t.windows| ==> WindowShape(t.windows[i])
  }

  predicate AttemptsBounded(t: Transfer, p: Pending) {
    t.attempts + (if p.StartPending? then 1 else 0) + Budget(t.windows) <= Granted(t.windows)
  }

  /** The cached pair agrees with the stored statuses, up to the change still to be handled. */
  predicate CacheAgrees(t: Transfer, p: Pending) {
    match p
    case NoPending => (t.info.lastTimeWindow, t.info.withinTimeWindow) == LastTouched(t.windows)
    case StartPending(i) => (i, true) == LastTouched(t.windows)
    case EndPending(i) => (i, false) == LastTouched(t.windows) && t.info.lastTimeWindow == i
  }

  /** A window in which the plug-in acts by itself, for a file it knows the type of. */
  predicate Served(t: Transfer) {
    t.windows != [] && Automatic(t.windows[|t.windows| - 1].plan.mode) && !t.fileType.EmptyFileType?
  }

  predicate DoneAtEnd(t: Transfer, p: Pending) {
    Served(t) && t.windows[|t.windows| - 1].status.Ended? && !p.EndPending? ==> t.status.Done?
  }

  ghost predicate Orderly(t: Transfer, p: Pending) {
    Timely(t.windows) && CacheAgrees(t, p) && DoneAtEnd(t, p)
  }

  ghost predicate Good(t: Transfer, p: Pending) {
    && Shape(t)
    && AttemptsBounded(t, p)
    && (PlanOrdered(t.windows) ==> Orderly(t, p))
  }

  /** At most one window change waits, and then nothing else; "Failed" changes are about failed transfers, one each. */
  ghost predicate QueueOk(s: State) {
    && (forall k :: 0 <= k < |s.queue| ==> s.queue[k].id in s.transfers)
    && (forall k :: 0 <= k < |s.queue| && s.queue[k].TransferFailed? ==> s.transfers[s.queue[k].id].status.Failed?)
    && (forall k :: 0 <= k < |s.queue| && !s.queue[k].TransferFailed? ==>
          |s.queue| == 1 && HasWindow(s, s.queue[k].id, s.queue[k].index))
    && (forall j, k :: 0 <= j < k < |s.queue| ==> s.queue[j] != s.queue[k])
  }

  /** The slot never refers to a missing, idle or finished transfer. */
  ghost predicate SlotOk(s: State) {
    s.slot.Some? ==>
      && s.slot.value in s.transfers
      && s.transfers[s.slot.value].fileType.FirmwareImage?
      && (s.transfers[s.slot.value].status.InProgress? || s.transfers[s.slot.value].status.Failed?)
  }

  ghost predicate Inv(s: State) {
    && QueueOk(s)
    && SlotOk(s)
    && forall id :: id in s.transfers ==> Good(s.transfers[id], PendingFor(s.queue, id))
  }

  // ----- Handlers, one transfer at a time -----

  predicate HoldsSlot(t: Transfer) {
    t.fileType.FirmwareImage? && (t.status.InProgress? || t.status.Failed?)
  }

  /** What a handler may do to the slot and to the "Failed" announcement. */
  predicate SlotMove(id: nat, slot: Option<nat>, o: Outcome) {
    && (o.slot == slot || o.slot == None || (slot == None && o.slot == Some(id)))
    && (o.slot == Some(id) ==> HoldsSlot(o.t))
    && (o.failed ==> o.t.status.Failed?)
  }

  /** A handler that leaves windows and cached pair alone keeps everything but the promise to finish. */
  lemma OnlyStatusChanged(t: Transfer, t': Transfer, p: Pending)
    requires Good(t, NoPending) && Shape(t') && AttemptsBounded(t', p)
    requires t'.windows == t.windows && t'.info == t.info && t'.fileType == t.fileType
    requires p.NoPending? && (t.status.Done? ==> t'.status.Done?)
    ensures Good(t', p)
  {
    if PlanOrdered(t'.windows) {
      assert Orderly(t, NoPending);
    }
  }

  lemma StartTransferKeepsGood(t: Transfer, slot: Option<nat>, id: nat, accepted: bool)
    requires Good(t, NoPending) && !t.status.Done?
    requires t.attempts + 1 + Budget(t.windows) <= Granted(t.windows)
    requires slot == Some(id) ==> HoldsSlot(t)
    ensures var o := StartTransfer(t, slot, id, accepted);
            Good(o.t, NoPending) && SlotMove(id, slot, o)
  {
    OnlyStatusChanged(t, StartTransfer(t, slot, id, accepted).t, NoPending);
  }

  lemma StartedKeepsGood(t: Transfer, slot: Option<nat>, id: nat, i: nat, accepted: bool)
    requires Good(t, StartPending(i)) && 1 <= i <= |t.windows|
    requires slot == Some(id) ==> HoldsSlot(t)
    ensures var o := OnWindowStarted(t, slot, id, i, accepted);
            Good(o.t, NoPending) && SlotMove(id, slot, o)
  {
    var t1 := t.(info := t.info.(withinTimeWindow := true, lastTimeWindow := i));
    assert Good(t1, NoPending) by {
      assert PlanOrdered(t1.windows) ==> Orderly(t, StartPending(i));
    }
    if !t.status.Done? && Automatic(CurrentMode(t1)) {
      StartTransferKeepsGood(t1, slot, id, accepted);
    }
  }

  /** Handling the end of a window only clears the flag, and completes the transfer if it was the last. */
  lemma EndedOutcome(t: Transfer, slot: Option<nat>, id: nat, i: nat, accepted: bool)
    requires Shape(t) && AttemptsBounded(t, EndPending(i))
    requires slot == Some(id) ==> HoldsSlot(t)
    ensures var o := OnWindowEnded(t, slot, id, accepted);
            && o.t.windows == t.windows && o.t.info == t.info.(withinTimeWindow := false) && o.t.fileType == t.fileType
            && Shape(o.t) && AttemptsBounded(o.t, NoPending) && SlotMove(id, slot, o)
            && (t.status.Done? || (Served(t) && t.info.lastTimeWindow == |t.windows|) ==> o.t.status.Done?)
  {
  }

  lemma EndedKeepsGood(t: Transfer, slot: Option<nat>, id: nat, i: nat, accepted: bool)
    requires Good(t, EndPending(i)) && 1 <= i <= |t.windows|
    requires slot == Some(id) ==> HoldsSlot(t)
    ensures var o := OnWindowEnded(t, slot, id, accepted);
            Good(o.t, NoPending) && SlotMove(id, slot, o)
  {
    var t' := OnWindowEnded(t, slot, id, accepted).t;
    EndedOutcome(t, slot, id, i, accepted);
    if PlanOrdered(t'.windows) {
      assert Orderly(t, EndPending(i));
    }
  }

  lemma FailedKeepsGood(t: Transfer, slot: Option<nat>, id: nat, accepted: bool)
    requires Good(t, NoPending) && t.status.Failed?
    requires slot == Some(id) ==> HoldsSlot(t)
    ensures var o := OnTransferFailed(t, slot, id, accepted);
            Good(o.t, NoPending) && SlotMove(id, slot, o)
  {
    var o := OnTransferFailed(t, slot, id, accepted);
    if Automatic(CurrentMode(t)) && t.info.withinTimeWindow {
      var last := t.info.lastTimeWindow - 1;
      var w := t.windows[last];
      if w.maxRetries > 0 {
        var w' := w.(maxRetries := w.maxRetries - 1);
        RetryKeepsGood(t, last, w');
        StartTransferKeepsGood(t.(windows := t.windows[last := w']), slot, id, accepted);
      } else if t.info.numberOfTimeWindow == t.info.lastTimeWindow {
        OnlyStatusChanged(t, o.t, NoPending);
      }
    }
  }

  /** Taking a retry pays for one attempt. */
  lemma RetryKeepsGood(t: Transfer, i: nat, w: Window)
    requires Good(t, NoPending) && i < |t.windows|
    requires t.windows[i].maxRetries > 0 && w == t.windows[i].(maxRetries := t.windows[i].maxRetries - 1)
    ensures var t' := t.(windows := t.windows[i := w]);
            Good(t', NoPending) && t'.attempts + 1 + Budget(t'.windows) <= Granted(t'.windows)
  {
    var ws' := t.windows[i := w];
    BudgetUpdate(t.windows, i, w);
    if PlanOrdered(ws') {
      assert forall k :: 0 <= k < |ws'| ==> ws'[k].plan == t.windows[k].plan;
      assert PlanOrdered(t.windows);
      RetriesKeepTimely(t.windows, i, w);
    }
  }

  /** Retries play no part in what is due when. */
  lemma RetriesKeepTimely(ws: seq<Window>, i: nat, w: Window)
    requires Timely(ws) && i < |ws| && w == ws[i].(maxRetries := w.maxRetries)
    ensures Timely(ws[i := w]) && LastTouched(ws[i := w]) == LastTouched(ws)
  {
    var clock: nat, saved: nat :| ClockAt(ws, clock, saved);
    assert WindowAt(ws[i], clock, saved);
    assert ClockAt(ws[i := w], clock, saved);
    LastTouchedByStatus(ws, ws[i := w]);
  }

  lemma LastTouchedByStatus(ws: seq<Window>, ws': seq<Window>)
    requires |ws| == |ws'| && forall i :: 0 <= i < |ws| ==> ws'[i].status == ws[i].status
    ensures LastTouched(ws') == LastTouched(ws)
  {
  }

  // ----- Steps of the engine -----

  lemma ApplyKeepsInv(s: State, rest: seq<Change>, id: nat, o: Outcome)
    requires SlotOk(s) && id in s.transfers
    requires forall x :: x in s.transfers && x != id ==> Good(s.transfers[x], NoPending)
    requires QueueOk(s.(queue := rest)) && forall k :: 0 <= k < |rest| ==> rest[k].TransferFailed? && rest[k].id != id
    requires Good(o.t, NoPending) && SlotMove(id, s.slot, o)
    ensures Inv(Apply(s.(queue := rest), id, o))
  {
    var s' := Apply(s.(queue := rest), id, o);
    assert QueueOk(s');
    assert SlotOk(s');
    forall x | x in s'.transfers
      ensures Good(s'.transfers[x], PendingFor(s'.queue, x))
    {
      assert PendingFor(s'.queue, x) == NoPending;
    }
  }

  lemma DeliverKeepsInv(s: State, accepted: bool)
    requires Inv(s) && s.queue != []
    ensures Inv(DeliverHead(s, accepted))
  {
    var e := s.queue[0];
    var rest := s.queue[1..];
    var t := s.transfers[e.id];
    assert Good(t, PendingFor(s.queue, e.id));
    forall x | x in s.transfers && x != e.id
      ensures Good(s.transfers[x], NoPending)
    {
      assert PendingFor(s.queue, x) == NoPending;
    }
    assert forall k :: 0 <= k < |rest| ==> rest[k] == s.queue[k + 1] && rest[k] != s.queue[0];
    match e {
      case WindowStarted(id, i) =>
        StartedKeepsGood(t, s.slot, id, i, accepted);
        ApplyKeepsInv(s, rest, id, OnWindowStarted(t, s.slot, id, i, accepted));
      case WindowEnded(id, i) =>
        EndedKeepsGood(t, s.slot, id, i, accepted);
        ApplyKeepsInv(s, rest, id, OnWindowEnded(t, s.slot, id, accepted));
      case TransferFailed(id) =>
        FailedKeepsGood(t, s.slot, id, accepted);
        ApplyKeepsInv(s, rest, id, OnTransferFailed(t, s.slot, id, accepted));
    }
  }

  lemma UpgradedKeepsInv(s: State, id: nat, code: nat, text: string)
    requires Inv(s) && s.queue == [] && s.slot == Some(id) && code != 0
    ensures Inv(Upgraded(s, id, code, text).(slot := None))
  {
    var t := s.transfers[id];
    var o := UpgradeDone(t, s.slot, id, code, text).(slot := None);
    assert forall x :: x in s.transfers ==> Good(s.transfers[x], PendingFor(s.queue, x));
    OnlyStatusChanged(t, o.t, NoPending);
    ApplyKeepsInv(s, [], id, o);
    assert Apply(s.(queue := []), id, o) == Upgraded(s, id, code, text).(slot := None);
  }

  /** How a window may differ after its timers or stored offsets moved. */
  predicate Reclocked(w: Window, w': Window) {
    && w'.plan == w.plan && w'.status == w.status && w'.maxRetries == w.maxRetries
    && (w'.startTimer.Some? ==> w.startTimer.Some?)
    && (WindowShape(w) ==> WindowShape(w'))
  }

  lemma ReclockedKeepsGood(t: Transfer, ws: seq<Window>)
    requires Good(t, NoPending) && |ws| == |t.windows|
    requires forall i :: 0 <= i < |ws| ==> Reclocked(t.windows[i], ws[i])
    requires PlanOrdered(t.windows) ==> Timely(ws)
    ensures Good(t.(windows := ws), NoPending)
  {
    var t' := t.(windows := ws);
    BudgetMonotone(t.windows, ws);
    LastTouchedByStatus(t.windows, ws);
    assert Shape(t') && AttemptsBounded(t', NoPending);
    if PlanOrdered(ws) {
      SamePlansOrdered(t.windows, ws);
      assert Orderly(t, NoPending);
      assert CacheAgrees(t', NoPending) && DoneAtEnd(t', NoPending);
    }
  }

  lemma SamePlansOrdered(ws: seq<Window>, ws': seq<Window>)
    requires |ws| == |ws'| && forall i :: 0 <= i < |ws| ==> ws'[i].plan == ws[i].plan
    ensures PlanOrdered(ws) == PlanOrdered(ws')
  {
  }

  lemma SaveKeepsGood(t: Transfer)
    requires Good(t, NoPending)
    ensures Good(t.(windows := MapWindows(SaveOffsets, t.windows)), NoPending)
  {
    if PlanOrdered(t.windows) {
      SaveKeepsTimely(t.windows);
    }
    ReclockedKeepsGood(t, MapWindows(SaveOffsets, t.windows));
  }

  lemma ArmKeepsGood(t: Transfer)
    requires Good(t, NoPending)
    ensures Good(t.(windows := MapWindows(Arm, t.windows)), NoPending)
  {
    if PlanOrdered(t.windows) {
      ArmKeepsTimely(t.windows);
    }
    ReclockedKeepsGood(t, MapWindows(Arm, t.windows));
  }

  lemma ElapseKeepsGood(t: Transfer, ms: nat)
    requires Good(t, NoPending) && CanElapseAll(t.windows, ms)
    ensures Good(t.(windows := ElapseAll(t.windows, ms)), NoPending)
  {
    if PlanOrdered(t.windows) {
      ElapseKeepsTimely(t.windows, ms);
    }
    ReclockedKeepsGood(t, ElapseAll(t.windows, ms));
  }

  /** Every transfer changed by itself, and no more than its status stayed what it was. */
  lemma EachKeepsInv(s: State, s': State)
    requires Inv(s) && s.queue == [] && s'.queue == [] && s'.slot == s.slot
    requires s'.transfers.Keys == s.transfers.Keys
    requires forall id :: id in s.transfers ==> Good(s'.transfers[id], NoPending)
    requires forall id :: id in s.transfers ==>
               s'.transfers[id].status == s.transfers[id].status && s'.transfers[id].fileType == s.transfers[id].fileType
    ensures Inv(s')
  {
  }

  lemma SaveKeepsInv(s: State)
    requires Inv(s) && s.queue == []
    ensures Inv(SaveAll(s))
  {
    forall id | id in s.transfers
      ensures Good(SaveAll(s).transfers[id], NoPending)
    {
      assert Good(s.transfers[id], PendingFor(s.queue, id));
      SaveKeepsGood(s.transfers[id]);
    }
    EachKeepsInv(s, SaveAll(s));
  }

  lemma ElapseKeepsInv(s: State, ms: nat)
    requires Inv(s) && Enabled(s, Elapse(ms))
    ensures Inv(Step(s, Elapse(ms)))
  {
    var s' := Step(s, Elapse(ms));
    forall id | id in s.transfers
      ensures Good(s'.transfers[id], NoPending)
    {
      assert Good(s.transfers[id], PendingFor(s.queue, id));
      ElapseKeepsGood(s.transfers[id], ms);
    }
    EachKeepsInv(s, s');
  }

  lemma RebuildKeepsGood(t: Transfer)
    requires Good(t, NoPending)
    ensures Good(Rebuild(t), NoPending)
  {
    var t1 := Rebuild(t);
    assert Shape(t1) && AttemptsBounded(t1, NoPending);
    if PlanOrdered(t1.windows) {
      assert Orderly(t, NoPending);
    }
  }

  lemma RestartOneKeepsGood(t: Transfer, id: nat, imageStatus: Option<string>)
    requires Good(t, NoPending)
    ensures var o := RestartOne(t, id, imageStatus);
            Good(o.t, NoPending) && (o.failed ==> o.t.status.Failed?)
  {
    var t1 := Rebuild(t);
    RebuildKeepsGood(t);
    var t2 := t1;
    if t.status.InProgress? && t.fileType.FirmwareImage? {
      t2 := UpgradeDone(t1, None, id, PendingFault(imageStatus).0, PendingFault(imageStatus).1).t;
      OnlyStatusChanged(t1, t2, NoPending);
    }
    ArmKeepsGood(t2);
  }

  /** The queue holds at most one change per id, each about a listed transfer that failed. */
  ghost predicate Announces(q: seq<Change>, ts: map<nat, Transfer>, order: seq<nat>, images: map<nat, string>) {
    && (forall c :: c in q ==> c.TransferFailed? && c.id in order && FailsAtRestart(ts, c.id, images))
    && (forall j, k :: 0 <= j < k < |q| ==> q[j] != q[k])
  }

  lemma {:induction false} FailedAtRestartOnce(ts: map<nat, Transfer>, order: seq<nat>, images: map<nat, string>)
    requires forall i, j :: 0 <= i < j < |order| ==> order[i] != order[j]
    ensures Announces(FailedAtRestart(ts, order, images), ts, order, images)
    decreases |order|
  {
    if order != [] {
      var init, id := order[..|order| - 1], order[|order| - 1];
      FailedAtRestartOnce(ts, init, images);
      assert id !in init;
    }
  }

  lemma RestartEachKeepsGood(s: State, order: seq<nat>, images: map<nat, string>, id: nat)
    requires Inv(s) && s.queue == [] && id in s.transfers
    ensures Good(Restarted(s, order, images).transfers[id], NoPending)
    ensures FailsAtRestart(s.transfers, id, images) ==> Restarted(s, order, images).transfers[id].status.Failed?
  {
    assert Good(s.transfers[id], PendingFor(s.queue, id));
    RestartOneKeepsGood(s.transfers[id], id, ImageStatus(images, id));
  }

  /** With an empty slot, only announcements of failed transfers waiting, and good transfers, all is well. */
  lemma FreshInv(s: State)
    requires s.slot.None?
    requires forall c :: c in s.queue ==> c.TransferFailed? && c.id in s.transfers && s.transfers[c.id].status.Failed?
    requires forall j, k :: 0 <= j < k < |s.queue| ==> s.queue[j] != s.queue[k]
    requires forall id :: id in s.transfers ==> Good(s.transfers[id], NoPending)
    ensures Inv(s)
  {
    forall id | id in s.transfers
      ensures PendingFor(s.queue, id) == NoPending
    {
      if s.queue != [] {
        assert s.queue[0] in s.queue;
      }
    }
  }

  lemma RestartKeepsInv(s: State, order: seq<nat>, images: map<nat, string>)
    requires Inv(s) && Enabled(s, Restart(order, images))
    ensures Inv(Restarted(s, order, images))
  {
    var s' := Restarted(s, order, images);
    FailedAtRestartOnce(s.transfers, order, images);
    forall id | id in s.transfers
      ensures Good(s'.transfers[id], NoPending)
      ensures FailsAtRestart(s.transfers, id, images) ==> s'.transfers[id].status.Failed?
    {
      RestartEachKeepsGood(s, order, images, id);
    }
    FreshInv(s');
  }

  lemma NewTransferGood(fileType: FileType, plans: seq<Plan>)
    requires plans != []
    ensures Good(NewTransfer(fileType, plans), NoPending)
  {
    var used := if |plans| < 2 then plans else plans[..2];
    var armed := MapWindows(Arm, NewWindows(used));
    NewBudget(armed);
    SamePlansOrdered(NewWindows(used), armed);
    if PlanOrdered(armed) {
      NewWindowsTimely(used);
    }
  }

  lemma AddKeepsInv(s: State, id: nat, fileType: FileType, plans: seq<Plan>)
    requires Inv(s) && Enabled(s, Add(id, fileType, plans))
    ensures Inv(Step(s, Add(id, fileType, plans)))
  {
    if plans != [] {
      NewTransferGood(fileType, plans);
      assert forall x :: x in s.transfers ==> Good(s.transfers[x], PendingFor(s.queue, x));
    }
  }

  lemma AcknowledgeKeepsInv(s: State, id: nat)
    requires Inv(s) && Enabled(s, Acknowledge(id))
    ensures Inv(Step(s, Acknowledge(id)))
  {
    assert forall x :: x in s.transfers ==> Good(s.transfers[x], PendingFor(s.queue, x));
  }

  lemma NotifyKeepsInv(s: State, n: Notification)
    requires Inv(s) && s.queue == []
    ensures Inv(Notified(s, n))
  {
    if s.slot.Some? && n.status.Some? {
      if IsFailureStatus(n.status.value) {
        var log := if n.bootFailureLog.Some? then n.bootFailureLog.value else "";
        UpgradedKeepsInv(s, s.slot.value, FailureCode(log), log);
      } else if n.status.value == "Validating" {
        SaveKeepsInv(s);
      }
    }
  }

  /** The window whose timer fires becomes, or already was, the highest one that is not idle. */
  lemma TouchedNow(ws: seq<Window>, i: nat, w: Window)
    requires i < |ws| && StatusesOrdered(ws) && StatusesOrdered(ws[i := w]) && !w.status.Idle? && !ws[i].status.Ended?
    ensures LastTouched(ws[i := w]) == (i + 1, w.status.Started?)
    ensures ws[i].status.Started? ==> LastTouched(ws) == (i + 1, true)
  {
    var ws' := ws[i := w];
    assert forall j :: i < j < |ws| ==> ws[j].status.Idle? && ws'[j] == ws[j];
    assert ws'[i] == w;
  }

  lemma TimerKeepsGood(t: Transfer, i: nat, w: Window)
    requires Good(t, NoPending) && i < |t.windows|
    requires w == FireStart(t.windows[i]) || w == FireEnd(t.windows[i])
    requires if w.status.Started? then t.windows[i].startTimer == Some(0) else t.windows[i].endTimer == Some(0)
    ensures Good(t.(windows := t.windows[i := w]), if w.status.Started? then StartPending(i + 1) else EndPending(i + 1))
  {
    var ws' := t.windows[i := w];
    var t' := t.(windows := ws');
    var p := if w.status.Started? then StartPending(i + 1) else EndPending(i + 1);
    BudgetUpdate(t.windows, i, w);
    assert Shape(t') && AttemptsBounded(t', p);
    SamePlansOrdered(t.windows, ws');
    if PlanOrdered(ws') {
      assert Orderly(t, NoPending);
      TimersExpireInOrder(t.windows, i);
      FireKeepsTimely(t.windows, i);
      TouchedNow(t.windows, i, w);
      assert CacheAgrees(t', p) && DoneAtEnd(t', p);
    }
  }

  /** The one change a timer raises, about the one transfer it concerns. */
  lemma ChangeKeepsInv(s: State, id: nat, t: Transfer, change: Change)
    requires Inv(s) && s.queue == [] && id in s.transfers && change.id == id && !change.TransferFailed?
    requires 1 <= change.index <= |t.windows|
    requires t.status == s.transfers[id].status && t.fileType == s.transfers[id].fileType
    requires Good(t, PendingFor([change], id))
    ensures Inv(State(s.transfers[id := t], s.slot, [change]))
  {
    var s' := State(s.transfers[id := t], s.slot, [change]);
    forall x | x in s'.transfers
      ensures Good(s'.transfers[x], PendingFor(s'.queue, x))
    {
      if x != id {
        assert PendingFor(s'.queue, x) == PendingFor(s.queue, x) == NoPending;
        assert Good(s.transfers[x], PendingFor(s.queue, x));
      }
    }
  }

  lemma StartTimerKeepsInv(s: State, id: nat, i: nat)
    requires Inv(s) && s.queue == [] && HasWindow(s, id, i) && s.transfers[id].windows[i - 1].startTimer == Some(0)
    ensures Inv(SetWindow(s, id, i, FireStart(s.transfers[id].windows[i - 1]), WindowStarted(id, i)))
  {
    var t := s.transfers[id];
    var w := FireStart(t.windows[i - 1]);
    assert Good(t, PendingFor(s.queue, id));
    assert WindowShape(t.windows[i - 1]);
    TimerKeepsGood(t, i - 1, w);
    ChangeKeepsInv(s, id, t.(windows := t.windows[i - 1 := w]), WindowStarted(id, i));
    assert SetWindow(s, id, i, w, WindowStarted(id, i)).queue == [WindowStarted(id, i)];
  }

  lemma EndTimerKeepsInv(s: State, id: nat, i: nat)
    requires Inv(s) && s.queue == [] && HasWindow(s, id, i) && s.transfers[id].windows[i - 1].endTimer == Some(0)
    ensures Inv(SetWindow(s, id, i, FireEnd(s.transfers[id].windows[i - 1]), WindowEnded(id, i)))
  {
    var t := s.transfers[id];
    var w := FireEnd(t.windows[i - 1]);
    assert Good(t, PendingFor(s.queue, id));
    assert WindowShape(t.windows[i - 1]);
    TimerKeepsGood(t, i - 1, w);
    ChangeKeepsInv(s, id, t.(windows := t.windows[i - 1 := w]), WindowEnded(id, i));
    assert SetWindow(s, id, i, w, WindowEnded(id, i)).queue == [WindowEnded(id, i)];
  }

  /** Every step keeps the invariant. */
  lemma StepKeepsInv(s: State, e: Event)
    requires Inv(s) && Enabled(s, e)
    ensures Inv(Step(s, e))
  {
    match e {
      case Deliver(accepted) => DeliverKeepsInv(s, accepted);
      case Add(id, fileType, plans) => AddKeepsInv(s, id, fileType, plans);
      case Elapse(ms) => ElapseKeepsInv(s, ms);
      case StartTimer(id, i) => StartTimerKeepsInv(s, id, i);
      case EndTimer(id, i) => EndTimerKeepsInv(s, id, i);
      case Notify(n) => NotifyKeepsInv(s, n);
      case Save => SaveKeepsInv(s);
      case Restart(order, images) => RestartKeepsInv(s, order, images);
      case Acknowledge(id) => AcknowledgeKeepsInv(s, id);
    }
  }

  lemma {:induction false} RunKeepsInv(s: State, events: seq<Event>, s': State)
    requires Inv(s) && Runs(s, events, s')
    ensures Inv(s')
    decreases |events|
  {
    if events != [] {
      StepKeepsInv(s, events[0]);
      RunKeepsInv(Step(s, events[0]), events[1..], s');
    }
  }

  lemma ReachableInv(s: State)
    requires Reachable(s)
    ensures Inv(s)
  {
    var events :| Runs(Init(), events, s);
    RunKeepsInv(Init(), events, s);
  }
}
