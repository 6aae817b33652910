/**
 * Scheduling of ACS name resolutions (cwmpd_dns.c): concurrent queries of which only the newest
 * counts, one retry timer, and a bootstrap inform owed after a change of the ACS URL.
 */
module DnsModel {
  import opened Common

  const INT_MAX: int := 0x7fff_ffff
  const DEFAULT_INTERVAL: int := 300
  const RETRY_DELAY: int := 5

  /** A query in the resolver list. `generation` counts the calls that started resolutions; it is history. */
  datatype Resolver = Resolver(host: string, dirty: bool, answered: bool, generation: nat)

  /** What the last call that got as far as a host did with it. */
  datatype Latest = NoneYet | EmptyHost | StaticAddress | Lookup

  /** The last four fields are history. A timer that is armed carries the seconds it was armed with. */
  datatype State = State(
    resolvers: seq<Resolver>,
    timer: Option<int>,
    ttl: int,
    sendBootstrap: bool,
    addresses: seq<string>,
    generation: nat,
    latest: Latest,
    urlChanges: nat,
    bootstraps: nat)

  /** Reading and parsing the ACS URL. */
  datatype UrlReply = NoUrl | BadUrl | Host(name: string, isAddress: bool)

  datatype AddressNode = AddressNode(ip: string, ttl: int)

  datatype DnsReply = DnsFailure | DnsSuccess(nodes: seq<AddressNode>)

  /**
   * `queryCreated`: whether c-ares accepts a new query. `expiring`: the timer is about to fire,
   * so that it reports no time left and is not stopped.
   */
  datatype Event =
    | Resolve(urlChanged: bool, url: UrlReply, queryCreated: bool, expiring: bool)
    | TimerFires(timerUrl: UrlReply, timerQueryCreated: bool)
    | Answer(index: nat, reply: DnsReply, interval: Option<int>)
    | CleanUp(index: nat)

  // ----- Pieces -----

  /** The addresses of a reply, without those that could not be printed. */
  function Printable(nodes: seq<AddressNode>): (r: seq<string>) {
    if nodes == [] then []
    else Printable(nodes[..|nodes| - 1]) + if nodes[|nodes| - 1].ip != "" then [nodes[|nodes| - 1].ip] else []
  }

  function MinTtl(nodes: seq<AddressNode>): (ttl: int)
    ensures ttl <= INT_MAX
    ensures forall k :: 0 <= k < |nodes| && nodes[k].ip != "" ==> ttl <= nodes[k].ttl
    ensures ttl == INT_MAX || exists k :: 0 <= k < |nodes| && nodes[k].ip != "" && nodes[k].ttl == ttl
  {
    if nodes == [] then INT_MAX
    else
      var last, rest := nodes[|nodes| - 1], MinTtl(nodes[..|nodes| - 1]);
      if last.ip != "" && last.ttl < rest then last.ttl else rest
  }

  /**
   * The seconds to the next lookup: where the time to live is missing, zero or unbounded, the
   * periodic-inform interval as it is configured, or 300 s if that is not known.
   */
  function NextLookup(ttl: int, interval: Option<int>): (r: int) {
    if ttl <= 0 || ttl == INT_MAX then (if interval.Some? then interval.value else DEFAULT_INTERVAL) else ttl
  }

  /** A C `int`. */
  predicate FitsInt(value: int) {
    -INT_MAX - 1 <= value <= INT_MAX
  }

  /** A time to live that the schedule follows as it is. */
  predicate Usable(ttl: int) {
    0 < ttl < INT_MAX
  }

  lemma NextLookupPositiveIff(ttl: int, interval: Option<int>)
    requires FitsInt(ttl)
    ensures NextLookup(ttl, interval) > 0 <==> Usable(ttl) || interval.None? || interval.value > 0
  {
  }

  /** Longest delay in seconds whose milliseconds fit in an `int`. */
  const MAX_DELAY: int := 2147483

  /** The timer is set in milliseconds, computed in `int`: the product fits exactly if the delay chosen is at most MAX_DELAY either way. */
  lemma DelayFitsIff(ttl: int, interval: Option<int>)
    requires FitsInt(ttl)
    ensures FitsInt(NextLookup(ttl, interval) * 1000) <==>
            if Usable(ttl) then ttl <= MAX_DELAY else interval.None? || -MAX_DELAY <= interval.value <= MAX_DELAY
  {
  }

  function AllDirty(resolvers: seq<Resolver>): (r: seq<Resolver>)
    ensures |r| == |resolvers|
    ensures forall k :: 0 <= k < |r| ==> r[k] == resolvers[k].(dirty := true)
  {
    if resolvers == [] then [] else AllDirty(resolvers[..|resolvers| - 1]) + [resolvers[|resolvers| - 1].(dirty := true)]
  }

  function Retry(s: State): (s': State) {
    s.(timer := Some(RETRY_DELAY))
  }

  function PayBootstrap(s: State): (s': State) {
    if s.sendBootstrap then s.(bootstraps := s.bootstraps + 1, sendBootstrap := false) else s
  }

  /** What a call does once it has a host name. */
  function Begin(s: State, urlChanged: bool, expiring: bool): (s': State) {
    s.(addresses := if urlChanged then [] else s.addresses,
       sendBootstrap := s.sendBootstrap || urlChanged,
       urlChanges := s.urlChanges + if urlChanged then 1 else 0,
       timer := if expiring then s.timer else None,
       resolvers := AllDirty(s.resolvers),
       generation := s.generation + 1)
  }

  function ResolveHost(s: State, urlChanged: bool, url: UrlReply, queryCreated: bool, expiring: bool): (s': State) {
    if !url.Host? then Retry(s)
    else
      var s1 := Begin(s, urlChanged, expiring);
      if url.name == "" then s1.(latest := EmptyHost)
      else if url.isAddress then PayBootstrap(s1.(latest := StaticAddress, addresses := [url.name]))
      else if queryCreated then
        s1.(latest := Lookup, resolvers := s1.resolvers + [Resolver(url.name, false, false, s1.generation)])
      else Retry(s1.(latest := Lookup))
  }

  /** The callback of a query; only the newest one has any effect beyond being answered. */
  function Answered(s: State, index: nat, reply: DnsReply, interval: Option<int>): (s': State)
    requires index < |s.resolvers|
  {
    var s1 := s.(resolvers := s.resolvers[index := s.resolvers[index].(answered := true)]);
    if s.resolvers[index].dirty then s1
    else if reply.DnsSuccess? && reply.nodes != [] then
      var next := NextLookup(MinTtl(reply.nodes), interval);
      PayBootstrap(s1.(addresses := Printable(reply.nodes), ttl := next, timer := Some(next)))
    else
      PayBootstrap(Retry(s1))
  }

  function Removed(s: State, index: nat): (s': State)
    requires index < |s.resolvers|
  {
    s.(resolvers := s.resolvers[..index] + s.resolvers[index + 1..])
  }

  // ----- Steps -----

  function Init(): (r: State) {
    State([], None, 0, false, [], 0, NoneYet, 0, 0)
  }

  predicate Enabled(s: State, e: Event) {
    match e
    case Resolve(_, _, _, expiring) => expiring ==> s.timer.Some?
    case TimerFires(_, _) => s.timer.Some?
    case Answer(k, _, _) => k < |s.resolvers| && !s.resolvers[k].answered
    case CleanUp(k) => k < |s.resolvers|
  }

  /** Destroying a channel answers its query, if it is still open, with a failure. */
  function Step(s: State, e: Event): (s': State)
    requires Enabled(s, e)
  {
    match e
    case Resolve(urlChanged, url, created, expiring) => ResolveHost(s, urlChanged, url, created, expiring)
    case TimerFires(url, created) => ResolveHost(s.(timer := None), false, url, created, false)
    case Answer(k, reply, interval) => Answered(s, k, reply, interval)
    case CleanUp(k) => Removed(if s.resolvers[k].answered then s else Answered(s, k, DnsFailure, None), k)
  }

  ghost predicate Runs(s: State, events: seq<Event>, s': State)
    decreases |events|
  {
    if events == [] then s' == s
    else Enabled(s, events[0]) && Runs(Step(s, events[0]), events[1..], s')
  }

  ghost predicate Reachable(s: State) {
    exists events :: Runs(Init(), events, s)
  }

  // ----- Invariant -----

  /** Generations increase along the list, and exactly the query of the present one is not dirty. */
  ghost predicate NewestOnly(s: State) {
    && (forall i, j :: 0 <= i < j < |s.resolvers| ==> s.resolvers[i].generation < s.resolvers[j].generation)
    && (forall k :: 0 <= k < |s.resolvers| ==> s.resolvers[k].generation <= s.generation)
    && (forall k :: 0 <= k < |s.resolvers| ==> (!s.resolvers[k].dirty <==> s.resolvers[k].generation == s.generation))
  }

  ghost predicate OpenQuery(s: State) {
    exists k :: 0 <= k < |s.resolvers| && !s.resolvers[k].dirty && !s.resolvers[k].answered
  }

  ghost predicate RetryHeld(s: State) {
    s.latest.Lookup? ==> OpenQuery(s) || s.timer.Some?
  }

  predicate BootstrapAccounts(s: State) {
    && s.bootstraps + (if s.sendBootstrap then 1 else 0) <= s.urlChanges
    && (s.sendBootstrap ==> s.latest.EmptyHost? || s.latest.Lookup?)
  }

  ghost predicate Inv(s: State) {
    NewestOnly(s) && RetryHeld(s) && BootstrapAccounts(s)
  }

  lemma ResolveKeepsInv(s: State, urlChanged: bool, url: UrlReply, created: bool, expiring: bool)
    requires NewestOnly(s) && BootstrapAccounts(s)
    ensures Inv(ResolveHost(s, urlChanged, url, created, expiring))
  {
    var s' := ResolveHost(s, urlChanged, url, created, expiring);
    if url.Host? && url.name != "" && !url.isAddress && created {
      var last := s'.resolvers[|s'.resolvers| - 1];
      assert !last.dirty && !last.answered;
    }
  }

  lemma AnswerKeepsInv(s: State, index: nat, reply: DnsReply, interval: Option<int>)
    requires Inv(s) && index < |s.resolvers|
    ensures Inv(Answered(s, index, reply, interval))
  {
    var s' := Answered(s, index, reply, interval);
    if s.resolvers[index].dirty && s.latest.Lookup? && s.timer.None? {
      var k :| 0 <= k < |s.resolvers| && !s.resolvers[k].dirty && !s.resolvers[k].answered;
      assert !s'.resolvers[k].dirty && !s'.resolvers[k].answered;
    }
  }

  lemma RemoveKeepsInv(s: State, index: nat)
    requires Inv(s) && index < |s.resolvers| && s.resolvers[index].answered
    ensures Inv(Removed(s, index))
  {
    var s' := Removed(s, index);
    forall k | 0 <= k < |s'.resolvers|
      ensures s'.resolvers[k] == if k < index then s.resolvers[k] else s.resolvers[k + 1]
    {
    }
    if s.latest.Lookup? && s.timer.None? {
      var k :| 0 <= k < |s.resolvers| && !s.resolvers[k].dirty && !s.resolvers[k].answered;
      assert s'.resolvers[if k < index then k else k - 1] == s.resolvers[k];
    }
  }

  lemma StepKeepsInv(s: State, e: Event)
    requires Inv(s) && Enabled(s, e)
    ensures Inv(Step(s, e))
  {
    match e {
      case Resolve(urlChanged, url, created, expiring) => ResolveKeepsInv(s, urlChanged, url, created, expiring);
      case TimerFires(url, created) => ResolveKeepsInv(s.(timer := None), false, url, created, false);
      case Answer(k, reply, interval) => AnswerKeepsInv(s, k, reply, interval);
      case CleanUp(k) =>
        if !s.resolvers[k].answered {
          AnswerKeepsInv(s, k, DnsFailure, None);
        }
        RemoveKeepsInv(if s.resolvers[k].answered then s else Answered(s, k, DnsFailure, None), k);
    }
  }

  lemma {:induction false} RunKeepsInv(s: State, events: seq<Event>, s': State)
    requires Inv(s) && Runs(s, events, s')
    ensures Inv(s')
    decreases |events|
  {
    if events != [] {
      StepKeepsInv(s, events[0]);
      RunKeepsInv(Step(s, events[0]), events[1..], s');
    }
  }

  lemma ReachableInv(s: State)
    requires Reachable(s)
    ensures Inv(s)
  {
    var events :| Runs(Init(), events, s);
    RunKeepsInv(Init(), events, s);
  }

  // ----- What holds in every run -----

  /** At most one query counts, and it belongs to the newest resolution. */
  lemma AtMostOneCounts(s: State, i: nat, j: nat)
    requires Reachable(s) && i < |s.resolvers| && j < |s.resolvers|
    requires !s.resolvers[i].dirty && !s.resolvers[j].dirty
    ensures i == j && s.resolvers[i].generation == s.generation
  {
    ReachableInv(s);
  }

  /** The address list changes only by a new call, or by the successful answer to the newest resolution. */
  lemma AddressesAreFresh(s: State, e: Event)
    requires Reachable(s) && Enabled(s, e) && Step(s, e).addresses != s.addresses
    ensures (Step(s, e).generation == s.generation + 1 && (e.Resolve? || e.TimerFires?))
            || (e.Answer? && s.resolvers[e.index].generation == s.generation && e.reply.DnsSuccess?
                && Step(s, e).addresses == Printable(e.reply.nodes))
  {
    ReachableInv(s);
  }

  /** An answer to a superseded query is forgotten: addresses, timer and bootstrap stay as they are. */
  lemma StaleAnswersIgnored(s: State, k: nat, reply: DnsReply, interval: Option<int>)
    requires Reachable(s) && Enabled(s, Answer(k, reply, interval)) && s.resolvers[k].generation < s.generation
    ensures Step(s, Answer(k, reply, interval)) ==
            s.(resolvers := s.resolvers[k := s.resolvers[k].(answered := true)])
  {
    ReachableInv(s);
  }

  /** As long as the ACS has a name to look up, a query is open or the timer is armed. */
  lemma RetryNeverLost(s: State)
    requires Reachable(s) && s.latest.Lookup?
    ensures OpenQuery(s) || s.timer.Some?
  {
    ReachableInv(s);
  }

  /** Before any call has reached a host, a call that fails arms the timer and nothing disarms it but its firing. */
  lemma {:induction false} FirstRetryHeld(s: State, events: seq<Event>, s': State)
    requires Inv(s) && s.latest.NoneYet? && s.timer.Some? && Runs(s, events, s') && s'.latest.NoneYet?
    ensures s'.timer.Some?
    decreases |events|
  {
    if events != [] {
      var s1 := Step(s, events[0]);
      StepKeepsInv(s, events[0]);
      if !s1.latest.NoneYet? {
        LatestStays(s1, events[1..], s');
      } else {
        FirstRetryHeld(s1, events[1..], s');
      }
    }
  }

  lemma {:induction false} LatestStays(s: State, events: seq<Event>, s': State)
    requires !s.latest.NoneYet? && Runs(s, events, s')
    ensures !s'.latest.NoneYet?
    decreases |events|
  {
    if events != [] {
      LatestStays(Step(s, events[0]), events[1..], s');
    }
  }

  /** Bootstrap informs never outnumber the URL changes that could be parsed. */
  lemma BootstrapsWithinChanges(s: State)
    requires Reachable(s)
    ensures s.bootstraps <= s.urlChanges && (s.sendBootstrap ==> s.bootstraps < s.urlChanges)
  {
    ReachableInv(s);
  }

  /** A bootstrap that is owed will be paid: an answer is due or a retry armed, unless the ACS URL names no host. */
  lemma OwedBootstrapIsPending(s: State)
    requires Reachable(s) && s.sendBootstrap
    ensures s.latest.EmptyHost? || OpenQuery(s) || s.timer.Some?
  {
    ReachableInv(s);
  }

  /** An event that hears of the newest query, or finds the host to be an address. */
  predicate SettlesHost(s: State, e: Event)
    requires Enabled(s, e)
  {
    match e
    case Resolve(_, url, _, _) => url.Host? && url.name != "" && url.isAddress
    case TimerFires(url, _) => url.Host? && url.name != "" && url.isAddress
    case Answer(k, _, _) => !s.resolvers[k].dirty
    case CleanUp(k) => !s.resolvers[k].dirty && !s.resolvers[k].answered
  }

  /**
   * A bootstrap goes out only with an event that settles the host, which sends the one that is
   * owed, or that the same call makes owed, and leaves none.
   */
  lemma SettlingPaysBootstrap(s: State, e: Event)
    requires Enabled(s, e)
    ensures Step(s, e).bootstraps ==
            s.bootstraps + if SettlesHost(s, e) && (s.sendBootstrap || (e.Resolve? && e.urlChanged)) then 1 else 0
    ensures SettlesHost(s, e) ==> !Step(s, e).sendBootstrap
    ensures !SettlesHost(s, e) ==>
              (Step(s, e).sendBootstrap <==> s.sendBootstrap || (e.Resolve? && e.urlChanged && e.url.Host?))
  {
  }

  /** After a changed URL a bootstrap is owed or just sent exactly if it could be read and parsed, or one was owed already. */
  lemma UrlChangeOwesBootstrapIff(s: State, url: UrlReply, created: bool, expiring: bool)
    requires Enabled(s, Resolve(true, url, created, expiring))
    ensures var s' := Step(s, Resolve(true, url, created, expiring));
            (s'.sendBootstrap || s'.bootstraps > s.bootstraps) <==> url.Host? || s.sendBootstrap
  {
  }

  // ----- What single events do, spelled out -----

  /** `at` tells where the printable ones of the first `n` nodes are, in order. */
  ghost predicate PrintableAt(nodes: seq<AddressNode>, n: nat, at: seq<nat>) {
    && (forall j :: 0 <= j < |at| ==> at[j] < n <= |nodes| && nodes[at[j]].ip != "")
    && (forall i, j :: 0 <= i < j < |at| ==> at[i] < at[j])
    && (forall k {:trigger k in at} :: 0 <= k < n <= |nodes| && nodes[k].ip != "" ==> k in at)
  }

  /** `ips` are the addresses that stand at these places. */
  ghost predicate StandAt(nodes: seq<AddressNode>, ips: seq<string>, at: seq<nat>) {
    |at| == |ips| && forall j :: 0 <= j < |at| ==> at[j] < |nodes| && ips[j] == nodes[at[j]].ip
  }

  lemma NextPrintable(nodes: seq<AddressNode>, n: nat, at: seq<nat>)
    requires n < |nodes| && PrintableAt(nodes, n, at)
    ensures PrintableAt(nodes, n + 1, if nodes[n].ip != "" then at + [n] else at)
  {
    var at' := if nodes[n].ip != "" then at + [n] else at;
    assert forall k {:trigger k in at'} :: k in at ==> k in at';
    assert nodes[n].ip != "" ==> at'[|at|] == n;
  }

  lemma NextStands(nodes: seq<AddressNode>, n: nat, ips: seq<string>, at: seq<nat>)
    requires n < |nodes| && StandAt(nodes, ips, at)
    ensures StandAt(nodes, ips + [nodes[n].ip], at + [n])
  {
  }

  lemma PrintableStep(nodes: seq<AddressNode>, n: nat)
    requires n < |nodes|
    ensures Printable(nodes[..n + 1]) == Printable(nodes[..n]) + if nodes[n].ip != "" then [nodes[n].ip] else []
  {
    assert nodes[..n + 1][..n] == nodes[..n];
  }

  lemma {:induction false} PrintableInOrder(nodes: seq<AddressNode>, n: nat) returns (at: seq<nat>)
    requires n <= |nodes|
    ensures PrintableAt(nodes, n, at) && StandAt(nodes, Printable(nodes[..n]), at)
  {
    at := [];
    if n > 0 {
      at := PrintableInOrder(nodes, n - 1);
      NextPrintable(nodes, n - 1, at);
      NextStands(nodes, n - 1, Printable(nodes[..n - 1]), at);
      PrintableStep(nodes, n - 1);
      if nodes[n - 1].ip != "" {
        at := at + [n - 1];
      }
    }
  }

  /**
   * An answer to the newest query. If it brings nodes, the printable addresses, in their order and
   * as often as they occur, replace the list, and the next lookup is armed with the least time to
   * live among them, or where that is missing, zero or unbounded with the configured interval or
   * 300 s; otherwise the list stays and a retry is armed for 5 s. A bootstrap that is owed goes out.
   */
  lemma NewestAnswerDecides(s: State, k: nat, reply: DnsReply, interval: Option<int>) returns (at: seq<nat>, least: int)
    requires Reachable(s) && Enabled(s, Answer(k, reply, interval)) && s.resolvers[k].generation == s.generation
    ensures var s' := Step(s, Answer(k, reply, interval));
            && s'.resolvers == s.resolvers[k := s.resolvers[k].(answered := true)]
            && s'.generation == s.generation && s'.latest == s.latest && s'.urlChanges == s.urlChanges
            && !s'.sendBootstrap && s'.bootstraps == s.bootstraps + (if s.sendBootstrap then 1 else 0)
            && (reply.DnsFailure? || reply.nodes == [] ==> s'.addresses == s.addresses && s'.ttl == s.ttl && s'.timer == Some(5))
            && (reply.DnsSuccess? && reply.nodes != [] ==>
                  && PrintableAt(reply.nodes, |reply.nodes|, at) && StandAt(reply.nodes, s'.addresses, at)
                  && (forall j :: 0 <= j < |reply.nodes| && reply.nodes[j].ip != "" ==> least <= reply.nodes[j].ttl)
                  && (least == 0x7fff_ffff || exists j :: 0 <= j < |reply.nodes| && reply.nodes[j].ip != "" && reply.nodes[j].ttl == least)
                  && s'.ttl == (if 0 < least < 0x7fff_ffff then least else if interval.Some? then interval.value else 300)
                  && s'.timer == Some(s'.ttl))
  {
    ReachableInv(s);
    at, least := [], 0;
    if reply.DnsSuccess? {
      at := PrintableInOrder(reply.nodes, |reply.nodes|);
      assert reply.nodes[..|reply.nodes|] == reply.nodes;
      least := MinTtl(reply.nodes);
    }
  }

  /**
   * A call to resolve the ACS, from outside or by the timer. Without a host it only arms the retry.
   * With one it makes every query so far count no more, and then either has the address, or asks
   * for it, or, if that is refused, arms the retry.
   */
  lemma CallDecides(s: State, e: Event)
    requires Enabled(s, e) && (e.Resolve? || e.TimerFires?)
    ensures var s' := Step(s, e);
            var url, created := if e.Resolve? then e.url else e.timerUrl, if e.Resolve? then e.queryCreated else e.timerQueryCreated;
            var changed, kept := e.Resolve? && e.urlChanged, if e.Resolve? && e.expiring then s.timer else None;
            && (!url.Host? ==> s' == s.(timer := Some(5)))
            && (url.Host? ==>
                  var isAddress, looksUp := url.name != "" && url.isAddress, url.name != "" && !url.isAddress;
                  && s'.generation == s.generation + 1 && s'.ttl == s.ttl
                  && s'.urlChanges == s.urlChanges + (if changed then 1 else 0)
                  && s'.addresses == (if isAddress then [url.name] else if changed then [] else s.addresses)
                  && s'.timer == (if looksUp && !created then Some(5) else kept)
                  && s'.latest == (if looksUp then Lookup else if isAddress then StaticAddress else EmptyHost)
                  && |s'.resolvers| == |s.resolvers| + (if looksUp && created then 1 else 0)
                  && (forall k :: 0 <= k < |s.resolvers| ==> s'.resolvers[k] == s.resolvers[k].(dirty := true))
                  && (looksUp && created ==> s'.resolvers[|s.resolvers|] == Resolver(url.name, false, false, s.generation + 1)))
  {
  }

  /** Removing a resolver changes nothing else, unless it closes the newest query, which then counts as failed. */
  lemma CleanUpDecides(s: State, k: nat)
    requires Reachable(s) && Enabled(s, CleanUp(k))
    ensures var s', resolvers := Step(s, CleanUp(k)), s.resolvers[..k] + s.resolvers[k + 1..];
            s' == if s.resolvers[k].answered || s.resolvers[k].generation < s.generation then s.(resolvers := resolvers)
                  else s.(resolvers := resolvers, timer := Some(5), sendBootstrap := false,
                          bootstraps := s.bootstraps + if s.sendBootstrap then 1 else 0)
  {
    ReachableInv(s);
    var answered := s.resolvers[k := s.resolvers[k].(answered := true)];
    assert answered[..k] == s.resolvers[..k] && answered[k + 1..] == s.resolvers[k + 1..];
  }
}
