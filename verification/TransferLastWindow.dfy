/** What becomes of a scheduled download when its last window opens, and when its queue of changes is handled. */
module TransferLastWindow {
  import opened Common
  import opened TimeWindows
  import opened TransferModel
  import opened TransferProofs
  import opened TransferTheorems

  // ----- The last window opens -----

  /** Hand over waiting changes one by one; `accepted` are the bus answers to any Download calls. */
  function DeliverAll(s: State, accepted: seq<bool>): (s': State)
    decreases |accepted|
  {
    if accepted == [] || s.queue == [] then s else DeliverAll(DeliverHead(s, accepted[0]), accepted[1..])
  }

  /** A firmware transfer in its last window, which is one the plug-in acts in. */
  predicate InLastWindow(t: Transfer) {
    && t.fileType.FirmwareImage? && t.info.withinTimeWindow
    && t.info.numberOfTimeWindow == t.info.lastTimeWindow == |t.windows| > 0
    && Automatic(t.windows[|t.windows| - 1].plan.mode)
  }

  function LastRetries(t: Transfer): (n: nat)
    requires t.windows != []
  {
    Positive(t.windows[|t.windows| - 1].maxRetries)
  }

  /** The transfer is given up, and with it the slot if it was its own. */
  predicate GivenUp(s: State, id: nat, slot: Option<nat>) {
    id in s.transfers && s.transfers[id].status.Done? && s.slot == if slot == Some(id) then None else slot
  }

  predicate UnderWay(s: State, id: nat) {
    id in s.transfers && s.transfers[id].status.InProgress? && s.slot == Some(id)
  }

  /**
   * A failed transfer in its last window: the retries are used one after the other until a
   * download is accepted, and without effect while the slot is taken, by whomever.
   */
  lemma {:induction false} RetriesDecide(s: State, id: nat, accepted: seq<bool>)
    requires s.queue == [TransferFailed(id)] && id in s.transfers
    requires s.transfers[id].status.Failed? && InLastWindow(s.transfers[id]) && |accepted| > LastRetries(s.transfers[id])
    ensures var s', t := DeliverAll(s, accepted), s.transfers[id];
            var begins := s.slot.None? && true in accepted[..LastRetries(t)];
            && s'.queue == [] && (if begins then UnderWay(s', id) else GivenUp(s', id, s.slot))
            && (!begins ==> s'.transfers[id].attempts == t.attempts + LastRetries(t))
            && (t.faultCode == FAULT_INTERNAL_ERROR ==> s'.transfers[id].faultCode == FAULT_INTERNAL_ERROR)
    decreases |accepted|
  {
    var t := s.transfers[id];
    var n := LastRetries(t);
    var s1 := DeliverHead(s, accepted[0]);
    if n == 0 {
      assert s1.queue == [];
      assert DeliverAll(s1, accepted[1..]) == s1;
    } else {
      assert accepted[..n] == [accepted[0]] + accepted[1..][..n - 1];
      if s.slot.None? && accepted[0] {
        assert s1.queue == [];
        assert DeliverAll(s1, accepted[1..]) == s1;
      } else {
        assert s1.queue == [TransferFailed(id)];
        RetriesDecide(s1, id, accepted[1..]);
      }
    }
  }

  /** The state after one attempt in the last window that, with slot `slot`, got the answer `accepted`. */
  predicate Attempted(s: State, id: nat, slot: Option<nat>, accepted: bool, retries: nat) {
    if slot.None? && accepted then UnderWay(s, id) && s.queue == []
    else && s.queue == [TransferFailed(id)] && s.slot == slot && id in s.transfers
         && s.transfers[id].status.Failed? && InLastWindow(s.transfers[id])
         && LastRetries(s.transfers[id]) == retries && s.transfers[id].faultCode == FAULT_INTERNAL_ERROR
  }

  predicate Settled(s: State, id: nat, slot: Option<nat>, begins: bool) {
    s.queue == [] &&
    if begins then UnderWay(s, id) else GivenUp(s, id, slot) && s.transfers[id].faultCode == FAULT_INTERNAL_ERROR
  }

  /** Handling the opening of the last window makes one attempt. */
  lemma LastWindowAttempt(s: State, id: nat, accepted: bool)
    requires id in s.transfers && s.queue == [WindowStarted(id, |s.transfers[id].windows|)]
    requires var t := s.transfers[id];
             Shape(t) && Served(t) && t.fileType.FirmwareImage? && !t.status.Done?
    ensures Attempted(DeliverHead(s, accepted), id, s.slot, accepted, LastRetries(s.transfers[id]))
  {
  }

  lemma AttemptSettles(s: State, id: nat, slot: Option<nat>, retries: nat, accepted: seq<bool>)
    requires |accepted| > 1 + retries && Attempted(s, id, slot, accepted[0], retries)
    ensures Settled(DeliverAll(s, accepted[1..]), id, slot, slot.None? && true in accepted[..1 + retries])
  {
    assert accepted[..1 + retries] == [accepted[0]] + accepted[1..][..retries];
    if slot.None? && accepted[0] {
      assert DeliverAll(s, accepted[1..]) == s;
    } else {
      RetriesDecide(s, id, accepted[1..]);
    }
  }

  lemma LastWindowOutcome(s: State, id: nat, accepted: seq<bool>)
    requires id in s.transfers && s.queue == [WindowStarted(id, |s.transfers[id].windows|)]
    requires var t := s.transfers[id];
             Shape(t) && Served(t) && t.fileType.FirmwareImage? && !t.status.Done? && |accepted| > 1 + LastRetries(t)
    ensures Settled(DeliverAll(s, accepted), id, s.slot, s.slot.None? && true in accepted[..1 + LastRetries(s.transfers[id])])
  {
    LastWindowAttempt(s, id, accepted[0]);
    AttemptSettles(DeliverHead(s, accepted[0]), id, s.slot, LastRetries(s.transfers[id]), accepted);
  }

  lemma ReachableShape(s: State, id: nat)
    requires Reachable(s) && id in s.transfers
    ensures Shape(s.transfers[id])
  {
    ReachableGood(s, id);
  }

  /**
   * The last window opens for a firmware transfer that is not done. Once all changes are handled,
   * the upgrade is under way exactly if the slot was free and one of the downloads was accepted,
   * and the transfer is given up otherwise, with all its retries.
   */
  lemma LastWindowDecides(s: State, id: nat, accepted: seq<bool>)
    requires Reachable(s) && id in s.transfers && s.queue == [WindowStarted(id, |s.transfers[id].windows|)]
    requires var t := s.transfers[id];
             Served(t) && t.fileType.FirmwareImage? && !t.status.Done? && |accepted| > 1 + LastRetries(t)
    ensures var s', t := DeliverAll(s, accepted), s.transfers[id];
            var begins := s.slot.None? && true in accepted[..1 + LastRetries(t)];
            && s'.queue == [] && id in s'.transfers
            && (UnderWay(s', id) <==> begins)
            && (GivenUp(s', id, s.slot) && s'.transfers[id].faultCode == FAULT_INTERNAL_ERROR <==> !begins)
  {
    ReachableShape(s, id);
    LastWindowOutcome(s, id, accepted);
  }

  /**
   * With a device that accepts every download, the transfer is given up exactly if an upgrade,
   * its own of an earlier window or another transfer's, is running when its last window opens.
   */
  lemma AbandonedIffSlotTaken(s: State, id: nat, accepted: seq<bool>)
    requires Reachable(s) && id in s.transfers && s.queue == [WindowStarted(id, |s.transfers[id].windows|)]
    requires var t := s.transfers[id];
             Served(t) && t.fileType.FirmwareImage? && !t.status.Done? && |accepted| > 1 + LastRetries(t)
    requires forall k :: 0 <= k < |accepted| ==> accepted[k]
    ensures var s' := DeliverAll(s, accepted);
            && s'.queue == [] && id in s'.transfers
            && (s'.transfers[id].status.Done? <==> s.slot.Some?)
            && (s'.transfers[id].status.InProgress? <==> s.slot.None?)
  {
    LastWindowDecides(s, id, accepted);
    assert accepted[..1 + LastRetries(s.transfers[id])][0];
  }

  // ----- The queue drains -----

  /** The attempts that all listed transfers may still make. */
  function AttemptsLeft(ts: map<nat, Transfer>, order: seq<nat>): (n: nat) {
    if order == [] then 0
    else (if order[0] in ts then Budget(ts[order[0]].windows) else 0) + AttemptsLeft(ts, order[1..])
  }

  /** Deliveries needed at most: one for each waiting change, and one for each failure that may follow. */
  function Deliveries(s: State, order: seq<nat>): (n: nat) {
    |s.queue| + (if s.queue != [] && !s.queue[0].TransferFailed? then 1 else 0) + AttemptsLeft(s.transfers, order)
  }

  lemma {:induction false} AttemptsUpdate(ts: map<nat, Transfer>, order: seq<nat>, id: nat, t: Transfer)
    requires id in ts && forall i, j :: 0 <= i < j < |order| ==> order[i] != order[j]
    ensures AttemptsLeft(ts[id := t], order) ==
            AttemptsLeft(ts, order) + if id in order then Budget(t.windows) - Budget(ts[id].windows) else 0
  {
    if order != [] {
      AttemptsUpdate(ts, order[1..], id, t);
    }
  }

  lemma FailureSpendsBudget(t: Transfer, slot: Option<nat>, id: nat, accepted: bool)
    requires Shape(t)
    ensures var o := OnTransferFailed(t, slot, id, accepted);
            Budget(o.t.windows) + (if o.failed then 1 else 0) <= Budget(t.windows)
  {
    if Automatic(CurrentMode(t)) && t.info.withinTimeWindow {
      var last := t.info.lastTimeWindow - 1;
      BudgetUpdate(t.windows, last, t.windows[last].(maxRetries := t.windows[last].maxRetries - 1));
    }
  }

  /** What handling the oldest change makes of the transfer it is about. */
  function HeadOutcome(s: State, accepted: bool): (o: Outcome)
    requires s.queue != [] && s.queue[0].id in s.transfers
    ensures DeliverHead(s, accepted) == Apply(s.(queue := s.queue[1..]), s.queue[0].id, o)
  {
    var t := s.transfers[s.queue[0].id];
    match s.queue[0]
    case WindowStarted(id, i) => OnWindowStarted(t, s.slot, id, i, accepted)
    case WindowEnded(id, i) => OnWindowEnded(t, s.slot, id, accepted)
    case TransferFailed(id) => OnTransferFailed(t, s.slot, id, accepted)
  }

  lemma HeadSpendsBudget(s: State, accepted: bool)
    requires s.queue != [] && s.queue[0].id in s.transfers && Shape(s.transfers[s.queue[0].id])
    ensures var t, o := s.transfers[s.queue[0].id], HeadOutcome(s, accepted);
            Budget(o.t.windows) + (if o.failed then 1 else 0) <=
            Budget(t.windows) + (if s.queue[0].TransferFailed? then 0 else 1)
  {
    var t, id := s.transfers[s.queue[0].id], s.queue[0].id;
    FailureSpendsBudget(t, s.slot, id, accepted);
  }

  lemma DeliverShrinks(s: State, order: seq<nat>, accepted: bool)
    requires s.queue != [] && s.queue[0].id in s.transfers && Shape(s.transfers[s.queue[0].id])
    requires forall k :: 0 < k < |s.queue| ==> s.queue[k].TransferFailed?
    requires Lists(order, s.transfers.Keys)
    ensures Lists(order, DeliverHead(s, accepted).transfers.Keys)
    ensures Deliveries(DeliverHead(s, accepted), order) < Deliveries(s, order)
  {
    var id, o, rest := s.queue[0].id, HeadOutcome(s, accepted), s.queue[1..];
    HeadSpendsBudget(s, accepted);
    AttemptsUpdate(s.transfers, order, id, o.t);
    assert forall k :: 0 <= k < |rest| ==> rest[k] == s.queue[k + 1];
  }

  lemma HeadIsSound(s: State)
    requires Inv(s) && s.queue != []
    ensures s.queue[0].id in s.transfers && Shape(s.transfers[s.queue[0].id])
    ensures forall k :: 0 < k < |s.queue| ==> s.queue[k].TransferFailed?
  {
    assert QueueOk(s);
    assert Good(s.transfers[s.queue[0].id], PendingFor(s.queue, s.queue[0].id));
  }

  /** From every reachable state, enough deliveries, whatever the bus answers, leave no change waiting. */
  lemma {:induction false} QueueDrains(s: State, order: seq<nat>, accepted: seq<bool>)
    requires Reachable(s) && Lists(order, s.transfers.Keys) && |accepted| >= Deliveries(s, order)
    ensures DeliverAll(s, accepted).queue == []
  {
    ReachableInv(s);
    DrainsFrom(s, order, accepted);
  }

  lemma {:induction false} DrainsFrom(s: State, order: seq<nat>, accepted: seq<bool>)
    requires Inv(s) && Lists(order, s.transfers.Keys) && |accepted| >= Deliveries(s, order)
    ensures DeliverAll(s, accepted).queue == []
    decreases |accepted|
  {
    if s.queue != [] {
      HeadIsSound(s);
      DeliverShrinks(s, order, accepted[0]);
      DeliverKeepsInv(s, accepted[0]);
      DrainsFrom(DeliverHead(s, accepted[0]), order, accepted[1..]);
    }
  }
}
