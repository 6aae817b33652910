/** The resolver scheduling as it is written: static lists, one timer and a flag changed by callbacks. */
module DnsScheduler {
  import opened Common
  import opened DnsModel

  class Scheduler {
    var resolvers: seq<Resolver>
    var timer: Option<int>
    var ttl: int
    var sendBootstrap: bool
    var addresses: seq<string>
    var generation: nat
    var latest: Latest
    var urlChanges: nat
    var bootstraps: nat

    function Snapshot(): (r: State)
      reads this
    {
      State(resolvers, timer, ttl, sendBootstrap, addresses, generation, latest, urlChanges, bootstraps)
    }

    constructor ()
      ensures Snapshot() == Init()
    {
      resolvers, timer, ttl, sendBootstrap, addresses := [], None, 0, false, [];
      generation, latest, urlChanges, bootstraps := 0, NoneYet, 0, 0;
    }

    method MarkResolversAsDirty()
      modifies this`resolvers
      ensures resolvers == AllDirty(old(resolvers))
    {
      for i := 0 to |resolvers|
        invariant |resolvers| == |old(resolvers)|
        invariant forall k :: 0 <= k < i ==> resolvers[k] == old(resolvers)[k].(dirty := true)
        invariant forall k :: i <= k < |resolvers| ==> resolvers[k] == old(resolvers)[k]
      {
        resolvers := resolvers[i := resolvers[i].(dirty := true)];
      }
      assert resolvers == AllDirty(old(resolvers));
    }

    /** Collect the printable addresses and the lowest TTL of a reply. */
    method ReadReply(nodes: seq<AddressNode>)
      modifies this`addresses, this`ttl
      ensures addresses == Printable(nodes) && ttl == MinTtl(nodes)
    {
      addresses, ttl := [], INT_MAX;
      for i := 0 to |nodes|
        invariant addresses == Printable(nodes[..i]) && ttl == MinTtl(nodes[..i])
      {
        assert nodes[..i + 1][..i] == nodes[..i];
        if nodes[i].ip != "" {
          if ttl > nodes[i].ttl {
            ttl := nodes[i].ttl;
          }
          addresses := addresses + [nodes[i].ip];
        }
      }
      assert nodes[..|nodes|] == nodes;
    }

    /** `interval` is the periodic-inform interval, if it can be read. */
    method Schedule(interval: Option<int>)
      modifies this`ttl, this`timer
      ensures ttl == NextLookup(old(ttl), interval) && timer == Some(ttl)
    {
      if ttl <= 0 || ttl == INT_MAX {
        ttl := DEFAULT_INTERVAL;
        if interval.Some? {
          ttl := interval.value;
        }
      }
      timer := Some(ttl);
    }

    method SendOwedBootstrap()
      modifies this`sendBootstrap, this`bootstraps
      ensures Snapshot() == PayBootstrap(old(Snapshot()))
    {
      if sendBootstrap {
        bootstraps := bootstraps + 1;
        sendBootstrap := false;
      }
    }

    method ResolveCallback(index: nat, reply: DnsReply, interval: Option<int>)
      requires index < |resolvers|
      modifies this
      ensures Snapshot() == Answered(old(Snapshot()), index, reply, interval)
    {
      resolvers := resolvers[index := resolvers[index].(answered := true)];
      if resolvers[index].dirty {
        return;
      }
      if reply.DnsSuccess? && reply.nodes != [] {
        ReadReply(reply.nodes);
        Schedule(interval);
      } else {
        timer := Some(RETRY_DELAY);
      }
      SendOwedBootstrap();
    }

    /** What every call with a host name does first. */
    method BeginResolution(urlChanged: bool, expiring: bool)
      modifies this
      ensures Snapshot() == Begin(old(Snapshot()), urlChanged, expiring)
    {
      if urlChanged {
        addresses := [];
        sendBootstrap := true;
        urlChanges := urlChanges + 1;
      }
      if !expiring {
        timer := None;
      }
      MarkResolversAsDirty();
      generation := generation + 1;
    }

    /** Start a resolution; `ok` is false when a retry had to be scheduled instead. */
    method ResolveAcs(urlChanged: bool, url: UrlReply, queryCreated: bool, expiring: bool) returns (ok: bool)
      modifies this
      ensures Snapshot() == ResolveHost(old(Snapshot()), urlChanged, url, queryCreated, expiring)
      ensures ok <==> url.Host? && (url.name == "" || url.isAddress || queryCreated)
    {
      ok := false;
      if url.Host? {
        BeginResolution(urlChanged, expiring);
        if url.name == "" {
          latest := EmptyHost;
          ok := true;
        } else if url.isAddress {
          latest := StaticAddress;
          addresses := [url.name];
          SendOwedBootstrap();
          ok := true;
        } else {
          latest := Lookup;
          if queryCreated {
            resolvers := resolvers + [Resolver(url.name, false, false, generation)];
            ok := true;
          }
        }
      }
      if !ok {
        timer := Some(RETRY_DELAY);
      }
    }

    /** The TTL timer has run out. */
    method TtlExpired(url: UrlReply, queryCreated: bool)
      requires Enabled(Snapshot(), TimerFires(url, queryCreated))
      modifies this
      ensures Snapshot() == Step(old(Snapshot()), TimerFires(url, queryCreated))
    {
      timer := None;
      var ok := ResolveAcs(false, url, queryCreated, false);
    }

    /** The clean-up timer of a resolver has run out: its channel is destroyed, which closes an open query. */
    method CleanResolver(index: nat)
      requires Enabled(Snapshot(), CleanUp(index))
      modifies this
      ensures Snapshot() == Step(old(Snapshot()), CleanUp(index))
    {
      if !resolvers[index].answered {
        ResolveCallback(index, DnsFailure, None);
      }
      resolvers := resolvers[..index] + resolvers[index + 1..];
    }
  }
}
