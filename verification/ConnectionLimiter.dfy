/** The limit on connection requests: a list of timestamps pruned to a sliding window (cwmpd_connectionsecurity.c). */
module ConnectionLimiter {
  import opened Common

  /** Whether an acceptance at `t` still counts at `now`, for a window of `window` seconds. */
  predicate Counts(t: int, now: int, window: int) {
    t <= now && (t == now || now - t <= window)
  }

  function Counting(stamps: seq<int>, now: int, window: int): (r: seq<int>) {
    if stamps == [] then []
    else
      var n := |stamps| - 1;
      Counting(stamps[..n], now, window) + if Counts(stamps[n], now, window) then [stamps[n]] else []
  }

  /** `2 * max` in `unsigned int` arithmetic: two physical connections per request. */
  function Cap(max: uint32): (r: uint32) {
    (2 * max) % TWO_TO_THE_32
  }

  lemma CapIsDoubleIff(max: uint32)
    ensures Cap(max) == 2 * max <==> max < TWO_TO_THE_32 / 2
  {
  }

  /** A request reads the clock when it is checked and again when it is recorded. */
  datatype Request = Request(checked: int, recorded: int)

  /** `accepted` is the history of recorded times. */
  datatype State = State(stamps: seq<int>, accepted: seq<int>)

  function Step(s: State, r: Request, max: uint32, window: int): (s': State) {
    var kept := Counting(s.stamps, r.checked, window);
    if |kept| > Cap(max) then s.(stamps := kept)
    else State(kept + [r.recorded], s.accepted + [r.recorded])
  }

  function Run(requests: seq<Request>, max: uint32, window: int): (r: State) {
    if requests == [] then State([], [])
    else Step(Run(requests[..|requests| - 1], max, window), requests[|requests| - 1], max, window)
  }

  // ----- Runs with a clock that does not go back -----

  predicate Monotone(requests: seq<Request>) {
    && (forall k :: 0 <= k < |requests| ==> requests[k].checked <= requests[k].recorded)
    && (forall j, k :: 0 <= j < k < |requests| ==> requests[j].recorded <= requests[k].checked)
  }

  ghost predicate Sorted(times: seq<int>) {
    forall i, j :: 0 <= i < j < |times| ==> times[i] <= times[j]
  }

  /** From index `d` on, and only there, the times still count. */
  ghost predicate CountsFrom(times: seq<int>, d: nat, now: int, window: int) {
    && d <= |times|
    && (forall k :: 0 <= k < d ==> !Counts(times[k], now, window))
    && (forall k :: d <= k < |times| ==> Counts(times[k], now, window))
  }

  lemma {:induction false} FirstThatCounts(times: seq<int>, now: int, window: int) returns (d: nat)
    requires Sorted(times) && forall k :: 0 <= k < |times| ==> times[k] <= now
    ensures CountsFrom(times, d, now, window)
  {
    d := 0;
    while d < |times| && !Counts(times[d], now, window)
      invariant 0 <= d <= |times|
      invariant forall k :: 0 <= k < d ==> !Counts(times[k], now, window)
    {
      d := d + 1;
    }
  }

  lemma {:induction false} CountingIsSuffix(times: seq<int>, d: nat, now: int, window: int)
    requires CountsFrom(times, d, now, window)
    ensures Counting(times, now, window) == times[d..]
    decreases |times|
  {
    if times != [] {
      var n := |times| - 1;
      CountingIsSuffix(times[..n], if d <= n then d else n, now, window);
    }
  }

  /** The list holds the end of the history; what it lacks is too old by time `last`. */
  ghost predicate ListInv(s: State, last: int, window: int) {
    && Sorted(s.accepted) && (forall k :: 0 <= k < |s.accepted| ==> s.accepted[k] <= last)
    && |s.stamps| <= |s.accepted|
    && s.stamps == s.accepted[|s.accepted| - |s.stamps|..]
    && forall k :: 0 <= k < |s.accepted| - |s.stamps| ==> !Counts(s.accepted[k], last, window)
  }

  /** No window holds more than the cap and one. */
  ghost predicate Spaced(accepted: seq<int>, max: uint32, window: int) {
    forall i, j :: 0 <= i <= j < |accepted| && accepted[j] - accepted[i] <= window ==> j - i <= Cap(max)
  }

  ghost predicate Inv(s: State, last: int, max: uint32, window: int) {
    ListInv(s, last, window) && Spaced(s.accepted, max, window)
  }

  /** Pruning the list at `now` leaves what pruning the whole history would. */
  lemma PrunedListIsPrunedHistory(s: State, last: int, now: int, window: int) returns (d: nat)
    requires ListInv(s, last, window) && last <= now
    ensures CountsFrom(s.accepted, d, now, window)
    ensures Counting(s.accepted, now, window) == s.accepted[d..]
    ensures Counting(s.stamps, now, window) == s.accepted[d..]
  {
    d := FirstThatCounts(s.accepted, now, window);
    CountingIsSuffix(s.accepted, d, now, window);
    var gone := |s.accepted| - |s.stamps|;
    assert d < |s.accepted| ==> Counts(s.accepted[d], now, window);
    assert d < gone ==> !Counts(s.accepted[d], last, window);
    assert gone <= d;
    SuffixCounts(s.accepted, gone, d, now, window);
    CountingIsSuffix(s.stamps, d - gone, now, window);
  }

  lemma SuffixCounts(times: seq<int>, gone: nat, d: nat, now: int, window: int)
    requires CountsFrom(times, d, now, window) && gone <= d
    ensures CountsFrom(times[gone..], d - gone, now, window)
    ensures times[gone..][d - gone..] == times[d..]
  {
  }

  lemma AcceptKeepsInv(s: State, r: Request, d: nat, max: uint32, window: int)
    requires Inv(s, r.checked, max, window) && r.checked <= r.recorded
    requires CountsFrom(s.accepted, d, r.checked, window) && |s.accepted| - d <= Cap(max)
    ensures Inv(State(s.accepted[d..] + [r.recorded], s.accepted + [r.recorded]), r.recorded, max, window)
  {
    var n := |s.accepted|;
    var accepted := s.accepted + [r.recorded];
    assert accepted[d..] == s.accepted[d..] + [r.recorded];
    forall i, j | 0 <= i <= j < |accepted| && accepted[j] - accepted[i] <= window
      ensures j - i <= Cap(max)
    {
      assert i < d ==> !Counts(s.accepted[i], r.checked, window);
    }
    forall k | 0 <= k < d
      ensures !Counts(accepted[k], r.recorded, window)
    {
      assert !Counts(s.accepted[k], r.checked, window);
    }
  }

  lemma LaterKeepsInv(s: State, d: nat, last: int, later: int, max: uint32, window: int)
    requires Inv(s, last, max, window) && last <= later && CountsFrom(s.accepted, d, later, window)
    ensures Inv(State(s.accepted[d..], s.accepted), later, max, window)
  {
  }

  lemma StepKeepsInv(s: State, r: Request, last: int, max: uint32, window: int)
    requires Inv(s, last, max, window) && last <= r.checked <= r.recorded
    ensures Inv(Step(s, r, max, window), r.recorded, max, window)
  {
    var d := PrunedListIsPrunedHistory(s, last, r.checked, window);
    var pruned := State(s.accepted[d..], s.accepted);
    LaterKeepsInv(s, d, last, r.checked, max, window);
    if |s.accepted| - d <= Cap(max) {
      AcceptKeepsInv(pruned, r, d, max, window);
    } else {
      PrunedStaysPruned(pruned, r.checked, r.recorded, max, window);
    }
  }

  /** What has been dropped never counts again. */
  lemma PrunedStaysPruned(s: State, last: int, later: int, max: uint32, window: int)
    requires Inv(s, last, max, window) && last <= later
    ensures Inv(s, later, max, window)
  {
    forall k | 0 <= k < |s.accepted| - |s.stamps|
      ensures !Counts(s.accepted[k], later, window)
    {
      assert !Counts(s.accepted[k], last, window);
    }
  }

  lemma {:induction false} RunKeepsInv(requests: seq<Request>, max: uint32, window: int)
    requires Monotone(requests) && requests != []
    ensures Inv(Run(requests, max, window), requests[|requests| - 1].recorded, max, window)
  {
    var n := |requests| - 1;
    var init, r := requests[..n], requests[n];
    if n == 0 {
      StepKeepsInv(State([], []), r, r.checked, max, window);
    } else {
      RunKeepsInv(init, max, window);
      StepKeepsInv(Run(init, max, window), r, init[n - 1].recorded, max, window);
    }
  }

  /**
   * A request is refused exactly when more than the cap of all the acceptances so far still
   * count, although the list has been pruned on the way.
   */
  lemma RefusedIffHistoryExceedsCap(requests: seq<Request>, r: Request, max: uint32, window: int)
    requires Monotone(requests + [r])
    ensures var s := Run(requests, max, window);
            (Run(requests + [r], max, window).accepted == s.accepted) <==> |Counting(s.accepted, r.checked, window)| > Cap(max)
  {
    assert (requests + [r])[..|requests|] == requests;
    assert (requests + [r])[|requests|] == r;
    if requests != [] {
      assert forall k :: 0 <= k < |requests| ==> (requests + [r])[k] == requests[k];
      RunKeepsInv(requests, max, window);
      var s := Run(requests, max, window);
      var d := PrunedListIsPrunedHistory(s, requests[|requests| - 1].recorded, r.checked, window);
    }
  }

  lemma AcceptedOrNot(requests: seq<Request>, r: Request, max: uint32, window: int)
    ensures var accepted, accepted' := Run(requests, max, window).accepted, Run(requests + [r], max, window).accepted;
            accepted' == accepted || accepted' == accepted + [r.recorded]
  {
    assert (requests + [r])[..|requests|] == requests;
    assert (requests + [r])[|requests|] == r;
  }

  /** The acceptances within the last `window` seconds, both ends included. */
  function Recent(accepted: seq<int>, now: int, window: nat): (r: set<nat>) {
    set k: nat | k < |accepted| && now - window <= accepted[k] <= now
  }

  lemma {:induction false} CountingSize(times: seq<int>, now: int, window: nat)
    ensures |Counting(times, now, window)| == |Recent(times, now, window)|
  {
    if times == [] {
      assert Recent(times, now, window) == {};
    } else {
      var n := |times| - 1;
      var before := Recent(times[..n], now, window);
      CountingSize(times[..n], now, window);
      assert n !in before;
      assert Recent(times, now, window) == if now - window <= times[n] <= now then before + {n} else before;
    }
  }

  /**
   * A request is refused exactly when more than twice the limit of all the acceptances so far, in
   * `unsigned int`, are recent. Otherwise it is the newest acceptance, at the time it is recorded.
   */
  lemma RefusedIff(requests: seq<Request>, r: Request, max: uint32, window: nat)
    requires Monotone(requests + [r])
    ensures var accepted, accepted' := Run(requests, max, window).accepted, Run(requests + [r], max, window).accepted;
            accepted' == if |Recent(accepted, r.checked, window)| > 2 * max % 0x1_0000_0000 then accepted else accepted + [r.recorded]
  {
    AcceptedOrNot(requests, r, max, window);
    RefusedIffHistoryExceedsCap(requests, r, max, window);
    CountingSize(Run(requests, max, window).accepted, r.checked, window);
  }

  /** No closed interval of `window` seconds ever holds more than the cap plus one acceptances. */
  lemma WindowsHoldAtMostCapPlusOne(requests: seq<Request>, max: uint32, window: int, i: nat, j: nat)
    requires Monotone(requests)
    requires i <= j < |Run(requests, max, window).accepted|
    requires var accepted := Run(requests, max, window).accepted; accepted[j] - accepted[i] <= window
    ensures j - i + 1 <= Cap(max) + 1
  {
    RunKeepsInv(requests, max, window);
  }

  // ----- The list as it is kept -----

  class Limiter {
    var stamps: seq<int>

    constructor ()
      ensures stamps == []
    {
      stamps := [];
    }

    method MaxConnectionsAdd(now: int)
      modifies this
      ensures stamps == old(stamps) + [now]
    {
      stamps := stamps + [now];
    }

    /** Drop what no longer counts, then compare what is left with the cap. */
    method MaxConnectionsReached(now: int, max: uint32, window: int) returns (reached: bool)
      modifies this
      ensures stamps == Counting(old(stamps), now, window)
      ensures reached <==> |stamps| > Cap(max)
    {
      var i := 0;
      ghost var n := 0;
      ghost var all := stamps;
      while i < |stamps|
        invariant 0 <= i <= |stamps| && 0 <= n <= |all|
        invariant stamps[i..] == all[n..]
        invariant stamps[..i] == Counting(all[..n], now, window)
        decreases |stamps| - i
      {
        assert stamps[i] == stamps[i..][0] == all[n];
        assert all[..n + 1][..n] == all[..n];
        assert stamps[i + 1..] == stamps[i..][1..] == all[n..][1..] == all[n + 1..];
        var t := stamps[i];
        if (now > t && now - t > window) || t > now {
          stamps := stamps[..i] + stamps[i + 1..];
        } else {
          assert stamps[..i + 1] == stamps[..i] + [t];
          i := i + 1;
        }
        n := n + 1;
      }
      assert all[..n] == all && stamps[..i] == stamps;
      reached := |stamps| > (2 * max) % TWO_TO_THE_32;
    }

    /** Check, then record: the answer to one connection request. */
    method CheckAvailability(r: Request, max: uint32, window: int, ghost accepted: seq<int>) returns (ok: bool)
      modifies this
      ensures State(stamps, if ok then accepted + [r.recorded] else accepted) == Step(State(old(stamps), accepted), r, max, window)
    {
      var reached := MaxConnectionsReached(r.checked, max, window);
      if reached {
        return false;
      }
      MaxConnectionsAdd(r.recorded);
      ok := true;
    }
  }
}
