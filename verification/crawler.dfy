/** The crawler's shared fields and the lock-held methods that change them in place. What
    each method does is a function of CrawlState, which the protocol's steps use too. */
module CrawlerFields {
  import opened Wrappers
  import opened CrawlState

  class Crawler {
    const maxNodes: int
    var queue: seq<Item>
    var devices: map<Cid, Device>
    var links: seq<Link>
    var seen: set<Cid>
    var enqueuedIps: set<string>
    var reserved: nat
    var cidByIp: map<string, Cid>
    var cidByName: map<string, Cid>
    var cdpLinks: seq<(Cid, Neighbor)>
    // histories: the polls started and the addresses queued
    var polls: seq<Cid>
    var queuedIps: seq<string>

    function Fields(): Shared
      reads this
    {
      Shared(maxNodes, queue, enqueuedIps, reserved, seen, devices, links, cidByIp, cidByName, cdpLinks,
             polls, queuedIps)
    }

    /** A crawler that treats the devices of an earlier crawl as seen (`know`). */
    constructor (maxNodes: int, knownCids: set<Cid>, knownIps: set<string>, cidByIp: map<string, Cid>,
                 cidByName: map<string, Cid>)
      ensures Fresh(Fields()) && Sound(Fields()) && this.maxNodes == maxNodes
      ensures seen == knownCids && enqueuedIps == knownIps
    {
      this.maxNodes, queue, devices, links := maxNodes, [], map[], [];
      seen, enqueuedIps, reserved := knownCids, knownIps, 0;
      this.cidByIp, this.cidByName, cdpLinks, polls, queuedIps := cidByIp, cidByName, [], [], [];
    }

    /** `_enqueue`: an address the histories allow is reserved and put on the queue. */
    method Enqueue(ip: string, cid: Option<Cid>) returns (queued: bool)
      requires Sound(Fields())
      modifies this
      ensures queued == Takes(old(Fields()), ip, cid)
      ensures Fields() == CrawlState.Enqueue(old(Fields()), ip, cid) && Sound(Fields())
    {
      hide Sound, KeepsPolled;
      EnqueueKeepsSound(Fields(), ip, cid);
      if ip in enqueuedIps {
        return false;
      }
      if cid.Some? && cid.value in seen {
        return false;
      }
      if reserved >= maxNodes {
        return false;
      }
      TakingFits(Fields(), ip, cid);
      enqueuedIps := enqueuedIps + {ip};
      if cid.Some? {
        seen := seen + {cid.value};
      }
      reserved := reserved + 1;
      assert !QueueFull(maxNodes, queue);     // put_nowait does not raise
      queue, queuedIps := queue + [Task(ip, cid)], queuedIps + [ip];
      return true;
    }

    method Seed(ips: seq<string>) returns (queued: nat)
      requires Sound(Fields())
      modifies this
      ensures Fields() == CrawlState.Seed(old(Fields()), ips) && Sound(Fields())
      ensures reserved == old(reserved) + queued
    {
      queued := 0;
      for i := 0 to |ips|
        invariant Fields() == CrawlState.Seed(old(Fields()), ips[..i]) && Sound(Fields())
        invariant reserved == old(reserved) + queued
      {
        assert ips[..i + 1][..i] == ips[..i];
        var taken := Enqueue(ips[i], None);
        if taken {
          queued := queued + 1;
        }
      }
      assert ips[..|ips|] == ips;
    }

    /** The polled device's record and indexes; true exactly the first time its chassis is polled. */
    method RecordPolledDevice(ip: string, cid: Cid, name: Option<string>) returns (first: bool)
      requires Sound(Fields())
      modifies this
      ensures first == (cid !in old(polls))
      ensures Fields() == RecordPolled(old(Fields()), ip, cid, name) && Sound(Fields())
    {
      hide Sound;
      PolledIsKnown(Fields(), cid);
      RecordPolledKeepsSound(Fields(), ip, cid, name);
      seen, cidByIp := seen + {cid}, SetDefault(cidByIp, ip, cid);
      if cid in devices && devices[cid].pollable {
        return false;
      }
      if name.Some? {
        cidByName := SetDefault(cidByName, name.value, cid);
      }
      devices, polls := devices[cid := Device(Some(ip), Online, true)], polls + [cid];
      return true;
    }

    method RecordUnpollableIp(ip: string, expected: Option<Cid>)
      requires Sound(Fields())
      modifies this
      ensures Fields() == RecordUnpollable(old(Fields()), ip, expected.GetOr("ip:" + ip)) && Sound(Fields())
    {
      hide Sound, KeepsPolled;
      var cid := expected.GetOr("ip:" + ip);
      RecordUnpollableKeepsSound(Fields(), ip, cid);
      seen, cidByIp := seen + {cid}, SetDefault(cidByIp, ip, cid);
      if cid !in devices {
        devices := devices[cid := Device(Some(ip), Unreachable, false)];
      } else if !devices[cid].pollable {
        devices := devices[cid := Device(Some(devices[cid].ip.GetOr(ip)), Unreachable, false)];
      }
    }

    /** One LLDP row: its link is appended, and its address, if any, goes through `Enqueue`. */
    method HandleNeighbor(source: Cid, nb: Neighbor)
      requires Sound(Fields())
      modifies this
      ensures Fields() == CrawlState.HandleNeighbor(old(Fields()), source, nb) && Sound(Fields())
    {
      hide Sound, KeepsPolled;
      HandleNeighborKeepsSound(Fields(), source, nb);
      RowsKeepSound(Fields(), links + [Link(source, nb.cid, nb.localPort, nb.remotePort, Lldp)], cdpLinks);
      links := links + [Link(source, nb.cid, nb.localPort, nb.remotePort, Lldp)];
      if nb.mgmtIp.Some? && nb.cid !in devices && nb.cid !in seen {
        var _ := Enqueue(nb.mgmtIp.value, Some(nb.cid));
        return;
      }
      if nb.cid !in devices {
        devices, seen := devices[nb.cid := Device(nb.mgmtIp, Discovered, false)], seen + {nb.cid};
      }
    }

    /** `_handle_cdp_neighbor`: the entry is resolved once the crawl is over, its address
        queued now. */
    method HandleCdpNeighbor(source: Cid, nb: Neighbor)
      requires Sound(Fields())
      modifies this
      ensures Fields() == CrawlState.HandleCdpNeighbor(old(Fields()), source, nb) && Sound(Fields())
    {
      hide Sound, KeepsPolled;
      HandleCdpNeighborKeepsSound(Fields(), source, nb);
      RowsKeepSound(Fields(), links, cdpLinks + [(source, nb)]);
      var known := CdpTarget(Fields(), nb);
      cdpLinks := cdpLinks + [(source, nb)];
      if known.None? && nb.mgmtIp.Some? {
        var _ := Enqueue(nb.mgmtIp.value, None);
      }
    }
  }
}
